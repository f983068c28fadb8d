/**
 * The VNDB metadata provider: translation of VNDB visual-novel records into the host's
 * game records, the result loop of `search` and the record selection of the id lookup.
 *
 * The two foreign calls the translation makes are parameters:
 *  - `parse` is JavaScript's `new Date(s)`, giving InvalidDate where `getTime()` is NaN;
 *  - `download` is the media service's `downloadByUrl`, giving None where it throws.
 */
module VndbService {
  import opened Wrappers
  import opened Seqs
  import opened VndbModels
  import opened Metadata

  type DateParser = string -> JsDate
  type Downloader = string -> Option<Media>

  /** The provider's slug, stamped on every record it produces. */
  const Slug: string := "vndb"

  /** Prefix of a visual novel's page on the VNDB site. */
  const VndbSiteUrl: string := "https://vndb.org/"

  /** Every visual novel is rated 18+ until VNDB's own ratings are used. */
  const AdultAgeRating: int := 18

  /** VNDB's devstatus code for "in development". */
  const InDevelopment: int := 1

  /** The one genre every VNDB record gets: VNDB itself has no genres. */
  const VisualNovelGenre: GenreMetadata := GenreMetadata(Slug, "1", "Visual Novel")

  /**
   * `downloadImage`: no download for a missing or empty url; a download that throws
   * is caught and yields no image.
   */
  function DownloadImage(url: Option<string>, download: Downloader): (r: Option<Media>)
    ensures url.None? || url.value == "" ==> r.None?
    ensures url.Some? && url.value != "" ==> r == download(url.value)
  {
    match url
    case None => None
    case Some(u) => if u == "" then None else download(u)
  }

  /** `visualNovel.image?.url`: the cover url, absent when the novel has no image. */
  function CoverUrl(vn: VndbVisualNovel): (u: Option<string>)
  {
    match vn.image
    case None => None
    case Some(img) => Some(img.url)
  }

  /** The developer record of one VNDB producer. */
  function DeveloperOf(p: VndbProducer): (d: DeveloperMetadata)
  {
    DeveloperMetadata(Slug, p.id, p.name)
  }

  /** The url of one external link. */
  function LinkUrl(link: VndbExternalLink): (u: string)
  {
    link.url
  }

  /** The url of one screenshot. */
  function ImageUrl(shot: VndbImage): (u: string)
  {
    shot.url
  }

  /** The tag record of one VNDB tag. */
  function TagOf(t: VndbTag): (t': TagMetadata)
  {
    TagMetadata(Slug, t.id, t.name)
  }

  /** `mapGameMetadata`: the full game record of one visual novel. */
  function MapGameMetadata(vn: VndbVisualNovel, parse: DateParser, download: Downloader): (g: GameMetadata)
    ensures g.ageRating == AdultAgeRating
    ensures g.providerSlug == Slug && g.providerDataId == vn.id
    ensures g.providerDataUrl == VndbSiteUrl + vn.id
    ensures g.title == vn.title && g.description == vn.description
    ensures g.rating == vn.rating && g.averagePlaytime == vn.lengthMinutes
    // the release date is kept exactly when it parses to a valid date
    ensures g.releaseDate.None? <==> parse(vn.released).InvalidDate?
    ensures g.releaseDate.Some? ==> g.releaseDate.value == parse(vn.released)
    ensures g.earlyAccess <==> vn.devstatus == InDevelopment
    ensures |g.urlWebsites| == |vn.extlinks|
    ensures forall i :: 0 <= i < |vn.extlinks| ==> g.urlWebsites[i] == vn.extlinks[i].url
    ensures |g.urlScreenshots| == |vn.screenshots|
    ensures forall i :: 0 <= i < |vn.screenshots| ==> g.urlScreenshots[i] == vn.screenshots[i].url
    ensures |g.developers| == |vn.developers|
    ensures forall i :: 0 <= i < |vn.developers| ==>
              g.developers[i] == DeveloperMetadata(Slug, vn.developers[i].id, vn.developers[i].name)
    ensures |g.tags| == |vn.tags|
    ensures forall i :: 0 <= i < |vn.tags| ==>
              g.tags[i] == TagMetadata(Slug, vn.tags[i].id, vn.tags[i].name)
    ensures g.publishers == [] && g.genres == [VisualNovelGenre]
    // the cover is the downloaded image exactly when there is a non-empty url to download
    ensures vn.image.None? || vn.image.value.url == "" ==> g.cover.None?
    ensures vn.image.Some? && vn.image.value.url != "" ==> g.cover == download(vn.image.value.url)
    ensures g.urlTrailers.None? && g.urlGameplays.None? && g.background.None?
  {
    var date := parse(vn.released);
    GameMetadata(
      ageRating := AdultAgeRating,
      providerSlug := Slug,
      providerDataId := vn.id,
      providerDataUrl := VndbSiteUrl + vn.id,
      title := vn.title,
      releaseDate := if date.InvalidDate? then None else Some(date),
      description := vn.description,
      rating := vn.rating,
      urlWebsites := MapSeq(LinkUrl, vn.extlinks),
      earlyAccess := vn.devstatus == InDevelopment,
      urlScreenshots := MapSeq(ImageUrl, vn.screenshots),
      urlTrailers := None,
      urlGameplays := None,
      averagePlaytime := vn.lengthMinutes,
      developers := MapSeq(DeveloperOf, vn.developers),
      publishers := [],
      genres := [VisualNovelGenre],
      tags := MapSeq(TagOf, vn.tags),
      cover := DownloadImage(CoverUrl(vn), download),
      background := None)
  }

  /**
   * `mapMinimalGameMetadata`: the search-hit record. The release date is taken without a
   * validity check, and the cover url is read from an image that must be there.
   */
  function MapMinimalGameMetadata(vn: VndbVisualNovel, parse: DateParser): (m: MinimalGameMetadata)
    requires vn.image.Some?
    ensures m.providerSlug == Slug && m.providerDataId == vn.id
    ensures m.title == vn.title && m.description == vn.description
    ensures m.releaseDate == parse(vn.released)
    ensures m.coverUrl == vn.image.value.url
  {
    MinimalGameMetadata(Slug, vn.id, vn.title, vn.description, parse(vn.released), vn.image.value.url)
  }

  /**
   * The result loop of `search`: the hits are copied into a fresh list, then each is
   * mapped to its minimal record, in order.
   */
  method Search(response: VndbFilterResponse, parse: DateParser) returns (records: seq<MinimalGameMetadata>)
    requires forall vn <- response.results :: vn.image.Some?
    ensures |records| == |response.results|
    ensures forall i :: 0 <= i < |response.results| ==>
              records[i] == MapMinimalGameMetadata(response.results[i], parse)
  {
    var searchResults: seq<VndbVisualNovel> := [];
    searchResults := searchResults + response.results;
    records := [];
    for i := 0 to |searchResults|
      invariant |records| == i
      invariant forall k :: 0 <= k < i ==> records[k] == MapMinimalGameMetadata(searchResults[k], parse)
    {
      records := records + [MapMinimalGameMetadata(searchResults[i], parse)];
    }
  }

  /**
   * The mapping step of `getByProviderDataIdOrFail`: the full record of the first hit.
   * The lookup has no not-found path, so a hit must be there.
   */
  function GetByProviderDataIdOrFail(response: VndbFilterResponse, parse: DateParser, download: Downloader): (g: GameMetadata)
    requires |response.results| > 0
    ensures g == MapGameMetadata(response.results[0], parse, download)
  {
    MapGameMetadata(response.results[0], parse, download)
  }

  // ---------------------------------------------------------------------------------
  // Properties relating several mappings

  /** Age rating, genres, publishers and the never-filled media fields do not depend on the input. */
  lemma ConstantFieldsIgnoreInput(a: VndbVisualNovel, b: VndbVisualNovel,
                                  parseA: DateParser, parseB: DateParser,
                                  downloadA: Downloader, downloadB: Downloader)
    ensures var ga, gb := MapGameMetadata(a, parseA, downloadA), MapGameMetadata(b, parseB, downloadB);
      ga.ageRating == gb.ageRating == 18 &&
      ga.genres == gb.genres == [GenreMetadata("vndb", "1", "Visual Novel")] &&
      ga.publishers == gb.publishers == [] &&
      ga.urlTrailers == gb.urlTrailers == None &&
      ga.urlGameplays == gb.urlGameplays == None &&
      ga.background == gb.background == None
  {
  }

  /** The VNDB page url gives back the id it was built from, so distinct ids get distinct pages. */
  lemma ProviderDataUrlDeterminesId(a: VndbVisualNovel, b: VndbVisualNovel,
                                    parse: DateParser, download: Downloader)
    ensures var g := MapGameMetadata(a, parse, download);
      |g.providerDataUrl| >= |VndbSiteUrl| &&
      g.providerDataUrl[..|VndbSiteUrl|] == VndbSiteUrl &&
      g.providerDataUrl[|VndbSiteUrl|..] == a.id
    ensures MapGameMetadata(a, parse, download).providerDataUrl
            == MapGameMetadata(b, parse, download).providerDataUrl
            ==> a.id == b.id
  {
  }

  /**
   * A failing download leaves the record without a cover and changes nothing else:
   * the mapping itself never fails because of it.
   */
  lemma DownloadFailureOnlyDropsCover(vn: VndbVisualNovel, parse: DateParser,
                                      download: Downloader, failing: Downloader)
    requires forall u :: failing(u) == None
    ensures MapGameMetadata(vn, parse, failing).cover == None
    ensures MapGameMetadata(vn, parse, failing) ==
            MapGameMetadata(vn, parse, download).(cover := None)
  {
  }

  /**
   * The search record agrees with the full record of the same novel: same slug, id, title
   * and description; its date is valid exactly when the full record has one, and then it
   * is that date; its cover url is the url the full mapping downloads.
   */
  lemma MinimalAgreesWithFull(vn: VndbVisualNovel, parse: DateParser, download: Downloader)
    requires vn.image.Some?
    ensures var m, g := MapMinimalGameMetadata(vn, parse), MapGameMetadata(vn, parse, download);
      m.providerSlug == g.providerSlug && m.providerDataId == g.providerDataId &&
      m.title == g.title && m.description == g.description &&
      (m.releaseDate.ValidDate? <==> g.releaseDate.Some?) &&
      (g.releaseDate.Some? ==> g.releaseDate.value == m.releaseDate) &&
      g.cover == DownloadImage(Some(m.coverUrl), download)
  {
  }

  /** The lookup reads only the first hit: later hits and the pagination flag are ignored. */
  lemma LookupUsesFirstResultOnly(r1: VndbFilterResponse, r2: VndbFilterResponse,
                                  parse: DateParser, download: Downloader)
    requires |r1.results| > 0 && |r2.results| > 0 && r1.results[0] == r2.results[0]
    ensures GetByProviderDataIdOrFail(r1, parse, download) == GetByProviderDataIdOrFail(r2, parse, download)
  {
  }

  /** A worked example: Ever17, a finished novel with one developer, tag, link and screenshot. */
  lemma Ever17Example(parse: DateParser, download: Downloader, time: int)
    requires parse("2002-08-29") == ValidDate(time)
    ensures var vn := VndbVisualNovel(
        released := "2002-08-29", image := Some(VndbImage("http://img/cover.png")),
        title := "Ever17", description := "", id := "v17", lengthMinutes := 1200, rating := 85.0,
        screenshots := [VndbImage("http://img/1.png")], developers := [VndbProducer("p1", "KID")],
        tags := [VndbTag("t1", "Time Loop")], devstatus := 0,
        extlinks := [VndbExternalLink("http://x.example", "Official")]);
      var g := MapGameMetadata(vn, parse, download);
      g.title == "Ever17" && g.releaseDate == Some(ValidDate(time)) && !g.earlyAccess &&
      g.averagePlaytime == 1200 && g.providerDataUrl == "https://vndb.org/v17" &&
      g.developers == [DeveloperMetadata("vndb", "p1", "KID")] &&
      g.tags == [TagMetadata("vndb", "t1", "Time Loop")] &&
      g.urlWebsites == ["http://x.example"] && g.urlScreenshots == ["http://img/1.png"] &&
      g.cover == download("http://img/cover.png")
  {
  }
}
