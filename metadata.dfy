/** The host application's metadata records that the provider fills in. */
module Metadata {
  import opened Wrappers

  /**
   * A JavaScript `Date` object: either a time value in milliseconds since the epoch,
   * or the "Invalid Date" whose `getTime()` is NaN.
   */
  datatype JsDate = ValidDate(time: int) | InvalidDate

  /** An opaque handle to an image stored by the host's media service. */
  datatype Media = Media(handle: nat)

  datatype DeveloperMetadata = DeveloperMetadata(providerSlug: string, providerDataId: string, name: string)
  datatype PublisherMetadata = PublisherMetadata(providerSlug: string, providerDataId: string, name: string)
  datatype GenreMetadata = GenreMetadata(providerSlug: string, providerDataId: string, name: string)
  datatype TagMetadata = TagMetadata(providerSlug: string, providerDataId: string, name: string)

  /** The full game record returned by a provider's id lookup. */
  datatype GameMetadata = GameMetadata(
    ageRating: int,
    providerSlug: string,
    providerDataId: string,
    providerDataUrl: string,
    title: string,
    releaseDate: Option<JsDate>,
    description: string,
    rating: real,
    urlWebsites: seq<string>,
    earlyAccess: bool,
    urlScreenshots: seq<string>,
    urlTrailers: Option<seq<string>>,
    urlGameplays: Option<seq<string>>,
    averagePlaytime: int,
    developers: seq<DeveloperMetadata>,
    publishers: seq<PublisherMetadata>,
    genres: seq<GenreMetadata>,
    tags: seq<TagMetadata>,
    cover: Option<Media>,
    background: Option<Media>)

  /** The lightweight record a provider returns for each search hit. */
  datatype MinimalGameMetadata = MinimalGameMetadata(
    providerSlug: string,
    providerDataId: string,
    title: string,
    description: string,
    releaseDate: JsDate,
    coverUrl: string)
}
