/** The metadata `upload_to_youtube` sends with each file. */
module Metadata {
  import opened Wrappers
  import opened Videos

  /** The destination platform's title limit, in characters. */
  const TitleLimit := 100
  const Ellipsis := "..."
  const DefaultDescription := "Check out my other content!"
  const DescriptionSuffix := "\n\n\U{1F4F1} Share and subscribe\n#Shorts"
  const CategoryPeopleAndBlogs := "22"
  const Public := "public"

  /** The request body of one upload: its snippet and status parts. */
  datatype UploadBody = UploadBody(title: string, description: string, tags: seq<string>,
                                   categoryId: string, privacyStatus: string,
                                   madeForKids: bool)

  /**
   * A title within the limit is kept; a longer one keeps its first 97
   * characters and ends in the ellipsis, exactly at the limit.
   */
  function TruncateTitle(title: string): (t: string)
    ensures |t| <= TitleLimit
    ensures |title| <= TitleLimit ==> t == title
    ensures |title| > TitleLimit ==> |t| == TitleLimit
    ensures |title| > TitleLimit ==>
      t[..TitleLimit - |Ellipsis|] == title[..TitleLimit - |Ellipsis|] &&
      t[TitleLimit - |Ellipsis|..] == Ellipsis
  {
    if |title| > TitleLimit then title[..TitleLimit - |Ellipsis|] + Ellipsis else title
  }

  /** Truncating a title twice gives what truncating it once gives. */
  lemma TruncateTitleIdempotent(title: string)
    ensures TruncateTitle(TruncateTitle(title)) == TruncateTitle(title)
  {
  }

  /** The description text before the suffix: the item's own, else the default. */
  function DescriptionOf(v: Video): (d: string)
    ensures v.description.Some? ==> d == v.description.value
    ensures v.description.None? ==> d == DefaultDescription
  {
    v.description.GetOr(DefaultDescription)
  }

  /**
   * The body sent for item `v` of account `username`: truncated title, the
   * description followed by the fixed suffix, the fixed tags, category and
   * public visibility, not made for kids.
   */
  function BodyFor(username: string, v: Video): (b: UploadBody)
    ensures b.title == TruncateTitle(v.title)
    ensures |b.title| <= TitleLimit
    ensures |v.title| <= TitleLimit ==> b.title == v.title
    ensures |b.description| == |DescriptionOf(v)| + |DescriptionSuffix|
    ensures b.description[..|DescriptionOf(v)|] == DescriptionOf(v)
    ensures b.description[|DescriptionOf(v)|..] == DescriptionSuffix
    ensures b.tags == ["TikTok", "shorts", username]
    ensures b.categoryId == CategoryPeopleAndBlogs && b.privacyStatus == Public && !b.madeForKids
  {
    var description := DescriptionOf(v) + DescriptionSuffix;
    assert description[..|DescriptionOf(v)|] == DescriptionOf(v);
    assert description[|DescriptionOf(v)|..] == DescriptionSuffix;
    UploadBody(TruncateTitle(v.title), description, ["TikTok", "shorts", username],
               CategoryPeopleAndBlogs, Public, false)
  }

  /** An item without a description is published with the default one and the suffix. */
  lemma DefaultDescriptionUsed(username: string, v: Video)
    requires v.description.None?
    ensures BodyFor(username, v).description == DefaultDescription + DescriptionSuffix
  {
    var d := BodyFor(username, v).description;
    assert d == d[..|DefaultDescription|] + d[|DefaultDescription|..];
  }

  /** A 120-character title is published as 97 of its characters and the ellipsis. */
  lemma LongTitleExample(title: string)
    requires |title| == 120
    ensures TruncateTitle(title) == title[..97] + "..."
    ensures |TruncateTitle(title)| == 100
  {
  }
}
