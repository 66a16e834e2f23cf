/** The table rows the core reads and writes: reference images, their
    delivery (DEX) content, user accounts, user uploads and the activity log.
    Timestamps are clock readings in whole seconds. */
module Records {
  import opened Common

  /** A reference image extracted from a PDF page (`extracted_images`). */
  datatype ExtractedImage = ExtractedImage(
    id: int,
    imagePath: string,
    pdfFilename: string,
    pageNumber: int,
    tags: Option<string>,
    imageType: Option<string>,
    businessName: Option<string>,
    businessReference: Option<string>,
    uploadedAt: int,
    isPublic: bool,
    printDesignId: Option<string>)

  /** The delivery content attached to one reference image (`dex_content`).
      `contentType` is free text; the kinds the handlers recognise are
      "video", "ar", "3d_model", "webpage", "pdf" and "link". */
  datatype DexContent = DexContent(
    id: int,
    imageId: int,
    title: string,
    description: string,
    contentType: string,
    contentUrl: Option<string>,
    contentData: Option<string>,
    isActive: bool,
    createdAt: int)

  /** A registered account (`users`). */
  datatype User = User(
    id: int,
    firstName: string,
    lastName: string,
    email: string,
    passwordHash: string,
    userType: string,
    companyName: Option<string>,
    industry: Option<string>,
    isActive: bool,
    createdAt: int,
    updatedAt: int)

  /** A file a user uploaded (`user_uploads`); `contentType` is "image" or "pdf". */
  datatype UserUpload = UserUpload(
    id: int,
    userId: int,
    filename: string,
    filePath: string,
    contentType: string,
    tags: Option<string>,
    uploadedAt: int)

  /** One entry of a user's activity timeline (`user_activities`). */
  datatype UserActivity = UserActivity(
    id: int,
    userId: int,
    activityType: string,
    title: string,
    description: Option<string>,
    timestamp: int)

  /** The content kinds that carry an AR/3D launch directive. */
  predicate IsArKind(contentType: string)
  {
    contentType == "ar" || contentType == "3d_model"
  }
}
