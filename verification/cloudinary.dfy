/** `uploadToCloudinary` (`src/utils/cloudinary.ts`) as seen by its callers:
    the HTTP exchange is outside this model, only its outcome matters. */
module Cloudinary {
  /** The `secure_url` of the uploaded image, or a throw. */
  datatype Upload = Uploaded(url: string) | UploadFailed
}
