/**
 * What one processed page shows once the reply has been parsed: the date,
 * one card per news section in reading order, and a gallery of the image
 * sections dealt over three columns.  Each card and tile carries the
 * rectangle cut from the page, or `None` where the crop gives up.
 */
module Page {
  import opened Wrappers
  import opened Geometry
  import opened Response
  import opened Layout

  /** A news card: the headline under the fallback rule, the optional sub-headline,
      the translated body, the original text behind the expander and the location crop. */
  datatype Card = Card(
    headline: string,
    subHeadline: Option<string>,
    body: Option<string>,
    originalHeadline: Option<string>,
    originalSubHeadline: Option<string>,
    originalBody: Option<string>,
    location: Option<Rect>)

  /** A gallery tile: its column, the picture's crop and the caption, if any. */
  datatype Tile = Tile(column: nat, picture: Option<Rect>, caption: Option<string>)

  datatype View = View(date: string, cards: seq<Card>, gallery: seq<Tile>)

  function NewsCard(s: Section, width: nat, height: nat): Card {
    Card(MainHeadline(s), Shown(s.headlineSubZh), s.bodyTextZh,
         s.headlineMainJp, Shown(s.headlineSubJp), s.bodyTextJp,
         CropImageSection(s.box, width, height))
  }

  function GalleryTile(i: nat, s: Section, width: nat, height: nat): Tile {
    Tile(Column(i), CropImageSection(s.box, width, height), Shown(s.captionZh))
  }

  /** The view of a parsed reply for a page of `width` x `height` pixels. */
  function Read(reply: Reply, width: nat, height: nat): (v: View)
    ensures v.date == Date(reply)
    ensures |v.cards| == |NewsSections(Sections(reply))|
    ensures |v.gallery| == |ImageSections(Sections(reply))|
    ensures |v.cards| + |v.gallery| <= |Sections(reply)|
    ensures reply.sections.None? ==> v.cards == [] && v.gallery == []
    ensures forall c :: c in v.cards ==> c.headline != "" && WithinImage(c.location, width, height)
    ensures forall i :: 0 <= i < |v.gallery| ==>
      v.gallery[i].column == i % ColumnCount && WithinImage(v.gallery[i].picture, width, height)
    ensures forall i :: 0 <= i < |v.cards| ==>
      var s := NewsSections(Sections(reply))[i];
      && v.cards[i].headline == MainHeadline(s)
      && v.cards[i].subHeadline == Shown(s.headlineSubZh)
      && v.cards[i].body == s.bodyTextZh
      && v.cards[i].originalHeadline == s.headlineMainJp
      && v.cards[i].originalSubHeadline == Shown(s.headlineSubJp)
      && v.cards[i].originalBody == s.bodyTextJp
      && v.cards[i].location == CropImageSection(s.box, width, height)
    ensures forall i :: 0 <= i < |v.gallery| ==>
      var s := ImageSections(Sections(reply))[i];
      && v.gallery[i].picture == CropImageSection(s.box, width, height)
      && v.gallery[i].caption == Shown(s.captionZh)
  {
    var ss := Sections(reply);
    var news := NewsSections(ss);
    var images := ImageSections(ss);
    SplitIsPartition(ss);
    View(Date(reply),
         seq(|news|, i requires 0 <= i < |news| => NewsCard(news[i], width, height)),
         seq(|images|, i requires 0 <= i < |images| => GalleryTile(i, images[i], width, height)))
  }

  /** A reply whose sections are all typed `"text"` shows no card and an empty gallery. */
  lemma TextSectionsAreNotShown(reply: Reply, width: nat, height: nat)
    requires reply.sections.Some?
    requires forall i :: 0 <= i < |reply.sections.value| ==> reply.sections.value[i].kind == Some("text")
    ensures Read(reply, width, height).cards == []
    ensures Read(reply, width, height).gallery == []
  {
    KeepEmpty(reply.sections.value, NewsTag);
    KeepEmpty(reply.sections.value, ImageTag);
  }
}
