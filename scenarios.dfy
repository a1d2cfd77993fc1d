/** Worked end-to-end scenarios of the bot, on concrete inputs. */
module Scenarios {
  import opened Wrappers
  import opened Strings
  import opened Markup
  import opened Classifier
  import opened Bot

  /** Three panel links whose texts end in their quality labels. */
  const Link720: PanelLink := PanelLink("Download " + "720p", "u1")
  const Link1280: PanelLink := PanelLink("Download " + "1280x720", "u2")
  const Link480: PanelLink := PanelLink("Download " + "480p", "u3")

  lemma EntryOf720()
    ensures Entry(Link720) == Some([Candidate("720p", "u1")])
  {
    EntryAfterPrefix("Download ", "720p", "u1");
  }

  lemma EntryOf1280()
    ensures Entry(Link1280) == Some([])
  {
    EntryAfterPrefix("Download ", "1280x720", "u2");
  }

  lemma EntryOf480()
    ensures Entry(Link480) == Some([Candidate("480p", "u3")])
  {
    EntryAfterPrefix("Download ", "480p", "u3");
  }

  /** Three renditions, the middle one the redundant one: the other two stay, in order. */
  lemma RedundantRenditionFiltered()
    ensures QualityList([Link720, Link1280, Link480]) == Some([Candidate("720p", "u1"), Candidate("480p", "u3")])
  {
    var a, b, c := Link720, Link1280, Link480;
    var x, y := Candidate("720p", "u1"), Candidate("480p", "u3");
    EntryOf720();
    EntryOf1280();
    EntryOf480();
    QualityListSingle(a);
    QualityListSingle(b);
    QualityListSingle(c);
    QualityListAppend([a], [b]);
    assert [a] + [b] == [a, b];
    assert [x] + [] == [x];
    QualityListAppend([a, b], [c]);
    assert [a, b] + [c] == [a, b, c];
    assert [x] + [y] == [x, y];
  }

  /** A video post captioned "hello" whose conversion panel lists 720p, 1280x720 and 480p. */
  const VideoPost: Page := Page(Some([Text("hello")]), true, [], Results([Link720, Link1280, Link480]))

  /** The video post offers the 720p and 480p renditions, keeps its caption, and the menu has three buttons. */
  lemma VideoPostOffersTwoRenditions()
    ensures Classify(VideoPost) == Extracted("hello", Video([Candidate("720p", "u1"), Candidate("480p", "u3")]))
    ensures |Keyboard([Candidate("720p", "u1"), Candidate("480p", "u3")])| == 3
  {
    RedundantRenditionFiltered();
    assert [Text("hello")][1..] == [];
    assert "hello" + "" == "hello";
  }

  /** Choice "99" against two candidates is rejected and leaves the selection for a retry; "0" then fetches the first. */
  lemma RetryAfterOutOfRange(links: seq<Candidate>)
    requires |links| == 2
    ensures Decide("99", Some(links)) == OutOfRange
    ensures Decide("0", Some(links)) == Fetch(links[0].url)
  {
  }

  /** Callback data led by a U+001C separator is not an integer for `int()`, whatever digits follow. */
  lemma SeparatorTokenIsInvalidInput(links: seq<Candidate>)
    requires |links| == 2
    ensures Decide("\U{1c}0", Some(links)) == NotAnInteger
  {
    ParseRejectsSeparator('\U{1c}', "0");
    assert "\U{1c}0" == ['\U{1c}'] + "0";
  }

  /** Quit with nothing stored is not an error: it cancels without reading the store. */
  lemma QuitWithoutSelection()
    ensures Decide("quit", None) == Cancel
  {
  }

  /** Three pictures: one group of three photos in order, captioned on the first only. */
  lemma PicturePostCaptionsFirstOnly(reply: Reply)
    requires RepliesTo(reply, Extracted("pic", Pictures(["p1", "p2", "p3"])))
    ensures reply.MediaGroup? && |reply.media| == 3
    ensures reply.media[0] == Photo("p1", Some("pic"))
    ensures reply.media[1] == Photo("p2", None) && reply.media[2] == Photo("p3", None)
  {
  }

  /** A post with no tweet-text node is an error, even when it carries media. */
  lemma MissingTextIsError(page: Page)
    requires page.tweetText.None?
    ensures Classify(page) == Failed
  {
  }

  /** The domain test is a plain substring test: a link to another site that ends in "x.com" passes it. */
  lemma OtherSitePassesLinkTest()
    ensures IsPostLink("https://netflix.com/")
  {
    assert OccursAt("https://netflix.com/", "x.com", 14);
  }
}
