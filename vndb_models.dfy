/** The shape of a visual novel as the VNDB "kana" API returns it. */
module VndbModels {
  import opened Wrappers

  /** An image reference: the cover or one screenshot. */
  datatype VndbImage = VndbImage(url: string)

  /** A producer credited as developer. */
  datatype VndbProducer = VndbProducer(id: string, name: string)

  /** A VNDB tag. */
  datatype VndbTag = VndbTag(id: string, name: string)

  /** An external link (official site, store page, ...). */
  datatype VndbExternalLink = VndbExternalLink(url: string, linkLabel: string)

  /** One visual novel record. `image` is optional: the API sends null for a novel without a cover. */
  datatype VndbVisualNovel = VndbVisualNovel(
    released: string,
    image: Option<VndbImage>,
    title: string,
    description: string,
    id: string,
    lengthMinutes: int,
    rating: real,
    screenshots: seq<VndbImage>,
    developers: seq<VndbProducer>,
    tags: seq<VndbTag>,
    devstatus: int,
    extlinks: seq<VndbExternalLink>)

  /** The body of a `POST /vn` response; `more` is the pagination flag. */
  datatype VndbFilterResponse = VndbFilterResponse(results: seq<VndbVisualNovel>, more: bool)
}
