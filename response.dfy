/**
 * Reading the recognition service's parsed JSON reply: the publication date,
 * the section list, its split into news and image sections, and the text
 * fallbacks used when a section is shown.
 */
module Response {
  import opened Wrappers
  import opened Geometry

  /** One entry of `sections`; every field is `None` when its key is absent or null. */
  datatype Section = Section(
    kind: Option<string>,              // "type"
    box: Option<seq<Coord>>,           // "box_2d"
    headlineMainJp: Option<string>,
    headlineMainZh: Option<string>,
    headlineSubJp: Option<string>,
    headlineSubZh: Option<string>,
    bodyTextJp: Option<string>,
    bodyTextZh: Option<string>,
    captionJp: Option<string>,
    captionZh: Option<string>)

  /** The `date` key of the reply: absent, present with the value null, or a string. */
  datatype DateField = Absent | Null | Given(text: string)

  /** The top-level object: `date`, and `sections` (`None` when the key is absent). */
  datatype Reply = Reply(date: DateField, sections: Option<seq<Section>>)

  const UnknownDate: string := "未知"
  /** How an f-string renders Python's `None`. */
  const NoneText: string := "None"
  const Untitled: string := "無標題"
  const NewsTag: string := "news"
  const ImageTag: string := "image"

  /** The date as shown, `data.get('date', '未知')`: the default applies only when the
      key is absent; a null date is shown as `None`. */
  function Date(reply: Reply): (d: string)
    ensures reply.date.Absent? ==> d == UnknownDate
    ensures reply.date.Null? ==> d == NoneText
    ensures reply.date.Given? ==> d == reply.date.text
  {
    match reply.date
    case Absent => UnknownDate
    case Null => NoneText
    case Given(text) => text
  }

  /** `data.get("sections", [])`. */
  function Sections(reply: Reply): (ss: seq<Section>)
    ensures reply.sections.None? ==> ss == []
    ensures reply.sections.Some? ==> ss == reply.sections.value
  {
    reply.sections.GetOr([])
  }

  /** `[s for s in sections if s.get("type") == tag]`. */
  function Keep(ss: seq<Section>, tag: string): (r: seq<Section>)
    ensures |r| <= |ss|
    ensures forall s :: s in r ==> s in ss && s.kind == Some(tag)
    ensures forall s :: s in ss && s.kind == Some(tag) ==> s in r
  {
    if ss == [] then []
    else (if ss[0].kind == Some(tag) then [ss[0]] else []) + Keep(ss[1..], tag)
  }

  function NewsSections(ss: seq<Section>): seq<Section> { Keep(ss, NewsTag) }

  function ImageSections(ss: seq<Section>): seq<Section> { Keep(ss, ImageTag) }

  /** `a` is `b` with some elements left out and the rest in their original order. */
  ghost predicate IsSubsequence(a: seq<Section>, b: seq<Section>)
    decreases |b|
  {
    a == [] || (b != [] && ((a[0] == b[0] && IsSubsequence(a[1..], b[1..])) || IsSubsequence(a, b[1..])))
  }

  /** The kept list keeps the reading order and takes each section with the tag
      exactly as many times as it occurs, and nothing else. */
  lemma {:induction false} KeepIsOrderedSelection(ss: seq<Section>, tag: string)
    ensures IsSubsequence(Keep(ss, tag), ss)
    ensures forall s :: multiset(Keep(ss, tag))[s] == if s.kind == Some(tag) then multiset(ss)[s] else 0
  {
    if ss != [] {
      KeepIsOrderedSelection(ss[1..], tag);
      assert ss == [ss[0]] + ss[1..];
      var rest := Keep(ss[1..], tag);
      if ss[0].kind == Some(tag) {
        assert Keep(ss, tag) == [ss[0]] + rest;
        assert Keep(ss, tag)[1..] == rest;
      } else {
        assert Keep(ss, tag) == rest;
        if rest != [] {
          assert rest[0] in rest;
        }
      }
    }
  }

  /** The kept list is empty exactly when no section carries the tag. */
  lemma {:induction false} KeepEmpty(ss: seq<Section>, tag: string)
    ensures Keep(ss, tag) == [] <==> forall i :: 0 <= i < |ss| ==> ss[i].kind != Some(tag)
  {
    if ss != [] {
      KeepEmpty(ss[1..], tag);
      assert forall i :: 1 <= i < |ss| ==> ss[i] == ss[1..][i - 1];
    }
  }

  /** The number of sections the split drops: those whose type is neither tag. */
  function Dropped(ss: seq<Section>): nat
  {
    if ss == [] then 0
    else (if ss[0].kind == Some(NewsTag) || ss[0].kind == Some(ImageTag) then 0 else 1) + Dropped(ss[1..])
  }

  /** No section is both news and image; every section is news, image or dropped;
      a section with any other type (`"text"` included) or none is in neither list. */
  lemma {:induction false} SplitIsPartition(ss: seq<Section>)
    ensures forall s :: s in NewsSections(ss) ==> s !in ImageSections(ss)
    ensures |NewsSections(ss)| + |ImageSections(ss)| + Dropped(ss) == |ss|
    ensures |NewsSections(ss)| + |ImageSections(ss)| <= |ss|
    ensures Dropped(ss) == 0 <==> forall i :: 0 <= i < |ss| ==> ss[i].kind == Some(NewsTag) || ss[i].kind == Some(ImageTag)
    ensures forall s :: s in ss && s.kind != Some(NewsTag) && s.kind != Some(ImageTag) ==>
      s !in NewsSections(ss) && s !in ImageSections(ss)
  {
    if ss != [] {
      SplitIsPartition(ss[1..]);
      assert forall i :: 1 <= i < |ss| ==> ss[i] == ss[1..][i - 1];
    }
  }

  /** Python's truth value of an optional string: present and non-empty. */
  predicate Truthy(o: Option<string>) {
    o.Some? && o.value != ""
  }

  /** Python's `a or b` where `a` is an optional string and `b` a fallback. */
  function Or(a: Option<string>, b: string): (r: string)
    ensures Truthy(a) ==> r == a.value
    ensures !Truthy(a) ==> r == b
  {
    if Truthy(a) then a.value else b
  }

  /** `news.get('headline_main_zh') or news.get('headline_main_jp') or "無標題"`. */
  function MainHeadline(s: Section): (h: string)
    ensures h != ""
    ensures Truthy(s.headlineMainZh) ==> h == s.headlineMainZh.value
    ensures !Truthy(s.headlineMainZh) && Truthy(s.headlineMainJp) ==> h == s.headlineMainJp.value
    ensures !Truthy(s.headlineMainZh) && !Truthy(s.headlineMainJp) ==> h == Untitled
  {
    Or(s.headlineMainZh, Or(s.headlineMainJp, Untitled))
  }

  /** The optional text shown under an `if text:` guard: shown only when non-empty. */
  function Shown(o: Option<string>): (r: Option<string>)
    ensures r.Some? <==> Truthy(o)
    ensures r.Some? ==> r == o && r.value != ""
  {
    if Truthy(o) then o else None
  }
}
