/** The metadata record every capture produces (src/types.ts). Fields that are filled in only
    as capture steps succeed are optional, because a failed capture returns the partly
    filled record. */
module Types {
  import opened Common

  datatype Viewport = Viewport(width: int, height: int)

  /** The stored image: its file name, final pixel size and encoded size in bytes. */
  datatype ImageInfo = ImageInfo(filename: string, width: int, height: int, fileSize: int)

  /** Element counts read from the page. */
  datatype Elements = Elements(buttons: int, links: int, forms: int, images: int, inputs: int)

  datatype Metadata = Metadata(
    id: string,
    url: string,
    title: Option<string>,
    description: Option<string>,
    timestamp: string,
    category: string,
    viewport: Option<Viewport>,
    screenshot: Option<ImageInfo>,
    elements: Option<Elements>,
    error: Option<string>)
}
