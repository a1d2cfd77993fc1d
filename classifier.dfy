/**
  Content classification of a post (`fetch_twitter_content`). The browser is replaced
  by a snapshot of what it would render: the post page and, for a video post, the
  results panel of the conversion site the post's URL is submitted to.
 */
module Classifier {
  import opened Wrappers
  import opened Strings
  import opened Markup

  /** One `.download_link` of the conversion site's results panel: its visible text and its href. */
  datatype PanelLink = PanelLink(text: string, href: string)

  /** A rendition offered to the user: its quality label and its direct URL (the source's `[quality, url]` pair). */
  datatype Candidate = Candidate(quality: string, url: string)

  /** The rendition label that is always dropped from the list. */
  const RedundantQuality: string := "1280x720"

  /** What the conversion site does with the submitted URL. */
  datatype Converter =
    | ConverterFailed               // its input field or submit button is missing, or using them fails
    | ResultsTimeout                // no `result_overlay` panel within the 10-second wait
    | Results(links: seq<PanelLink>) // the panel's `.download_link` elements, in document order

  /** The post as the browser renders it. */
  datatype Page = Page(
    tweetText: Option<seq<Node>>, // children of the tweet-text node; None when it is not there within the 10-second wait or loading fails
    hasVideo: bool,               // some `video` element is on the page
    imageSrcs: seq<string>,       // `src` of every image in the post's photo region, in document order
    converter: Converter)

  /** The `{type, links}` part of the result. */
  datatype Content =
    | Video(links: seq<Candidate>)
    | Pictures(urls: seq<string>)
    | NoMedia

  /** The caption with the content, or the error result `(None, {'type': 'error', 'links': []})`. */
  datatype Extraction =
    | Extracted(caption: string, content: Content)
    | Failed

  // ---------------------------------------------------------------------------
  // The quality list
  // ---------------------------------------------------------------------------

  /**
    What one panel link adds to the quality list: nothing when it is the redundant
    rendition, None when its text has no word (IndexError).
   */
  function Entry(link: PanelLink): (r: Option<seq<Candidate>>)
    ensures r.None? <==> LastWord(link.text).None?
    ensures r.Some? ==> (r.value == [] <==> LastWord(link.text).value == RedundantQuality)
    ensures r.Some? && r.value != [] ==> r.value == [Candidate(LastWord(link.text).value, link.href)]
  {
    match LastWord(link.text)
    case None => None
    case Some(quality) => if quality == RedundantQuality then Some([]) else Some([Candidate(quality, link.href)])
  }

  /**
    The panel's links as `[quality, url]` pairs in discovery order, the redundant
    rendition left out; None when some link's text has no word.
   */
  function QualityList(links: seq<PanelLink>): (r: Option<seq<Candidate>>)
    ensures r.None? <==> exists i :: 0 <= i < |links| && LastWord(links[i].text).None?
    ensures r.Some? ==> |r.value| <= |links|
    ensures r.Some? ==> forall c :: c in r.value ==> c.quality != RedundantQuality
  {
    if links == [] then Some([])
    else
      var init := QualityList(links[..|links| - 1]);
      var last := Entry(links[|links| - 1]);
      if init.Some? && last.Some? then Some(init.value + last.value) else None
  }

  /** The list for consecutive runs of links is the two runs' lists, one after the other. */
  lemma {:induction false} QualityListAppend(a: seq<PanelLink>, b: seq<PanelLink>)
    ensures QualityList(a + b) ==
      if QualityList(a).Some? && QualityList(b).Some?
      then Some(QualityList(a).value + QualityList(b).value)
      else None
    decreases |b|
  {
    if b == [] {
      assert a + b == a;
      if QualityList(a).Some? {
        assert QualityList(a).value + [] == QualityList(a).value;
      }
    } else {
      var init := b[..|b| - 1];
      assert (a + b)[..|a + b| - 1] == a + init;
      assert (a + b)[|a + b| - 1] == b[|b| - 1];
      QualityListAppend(a, init);
      var x, y, z := QualityList(a), QualityList(init), Entry(b[|b| - 1]);
      if x.Some? && y.Some? && z.Some? {
        assert (x.value + y.value) + z.value == x.value + (y.value + z.value);
      }
    }
  }

  /** A single link gives exactly its own entry. */
  lemma QualityListSingle(link: PanelLink)
    ensures QualityList([link]) == Entry(link)
  {
    assert [link][..0] == [];
    if Entry(link).Some? {
      assert [] + Entry(link).value == Entry(link).value;
    }
  }

  /** No link other than the redundant rendition is dropped. */
  lemma {:induction false} QualityListKeeps(links: seq<PanelLink>, i: nat)
    requires i < |links| && QualityList(links).Some?
    requires LastWord(links[i].text).Some? && LastWord(links[i].text).value != RedundantQuality
    ensures Candidate(LastWord(links[i].text).value, links[i].href) in QualityList(links).value
    decreases |links|
  {
    var init := links[..|links| - 1];
    var prefix, last := QualityList(init).value, Entry(links[|links| - 1]).value;
    assert QualityList(links).value == prefix + last;
    if i == |links| - 1 {
      assert last[0] in prefix + last by {
        assert (prefix + last)[|prefix|] == last[0];
      }
    } else {
      assert init[i] == links[i];
      QualityListKeeps(init, i);
    }
  }

  /** The loop of `fetch_twitter_content` over the panel's download links. */
  method CollectVideoLinks(links: seq<PanelLink>) returns (r: Option<seq<Candidate>>)
    ensures r == QualityList(links)
  {
    var videoLinks: seq<Candidate> := [];
    var i := 0;
    while i < |links|
      invariant 0 <= i <= |links|
      invariant QualityList(links[..i]) == Some(videoLinks)
    {
      var link := links[i];
      var url := link.href;
      var quality := LastWord(link.text);
      if quality.None? {
        return None;
      }
      assert links[..i + 1][..i] == links[..i];
      assert links[..i + 1][i] == link;
      if quality.value == RedundantQuality {
        assert videoLinks + [] == videoLinks;
      } else {
        videoLinks := videoLinks + [Candidate(quality.value, url)];
      }
      i := i + 1;
    }
    assert links[..i] == links;
    r := Some(videoLinks);
  }

  // ---------------------------------------------------------------------------
  // Classification
  // ---------------------------------------------------------------------------

  /**
    The result of `fetch_twitter_content` for a page: video first, then pictures, then
    no media; the error result when the tweet text is missing, the caption cannot be
    built, or for a video the conversion site fails or a link has no label.
   */
  function Classify(page: Page): (e: Extraction)
    ensures e.Failed? <==>
      || page.tweetText.None?
      || Caption(page.tweetText.value).None?
      || (page.hasVideo && (!page.converter.Results? || QualityList(page.converter.links).None?))
    ensures e.Extracted? ==> Caption(page.tweetText.value) == Some(e.caption)
    ensures e.Extracted? ==> (e.content.Video? <==> page.hasVideo)
    ensures e.Extracted? && e.content.Video? ==> QualityList(page.converter.links) == Some(e.content.links)
    ensures e.Extracted? && e.content.Pictures? ==> e.content.urls == page.imageSrcs != []
    ensures e.Extracted? && e.content.NoMedia? ==> !page.hasVideo && page.imageSrcs == []
  {
    if page.tweetText.None? then Failed
    else
      match Caption(page.tweetText.value)
      case None => Failed
      case Some(caption) =>
        if page.hasVideo then
          match page.converter
          case Results(links) =>
            (match QualityList(links)
             case Some(videoLinks) => Extracted(caption, Video(videoLinks))
             case None => Failed)
          case _ => Failed
        else if page.imageSrcs != [] then Extracted(caption, Pictures(page.imageSrcs))
        else Extracted(caption, NoMedia)
  }

  /** Once a video is on the page the images are never looked at. */
  lemma VideoIgnoresImages(page: Page, srcs: seq<string>)
    requires page.hasVideo
    ensures Classify(page.(imageSrcs := srcs)) == Classify(page)
  {
  }

  /** Without a video the conversion site is never consulted. */
  lemma PicturesIgnoreConverter(page: Page, converter: Converter)
    requires !page.hasVideo
    ensures Classify(page.(converter := converter)) == Classify(page)
  {
  }

  /** The web browser session owned by one call of `fetch_twitter_content`. */
  class Browser {
    const page: Page
    var running: bool

    constructor (page: Page)
      ensures this.page == page && running
    {
      this.page := page;
      running := true;
    }

    method Quit()
      modifies this
      ensures !running
    {
      running := false;
    }
  }

  /**
    `fetch_twitter_content`: opens its own browser, classifies what it renders and
    quits the browser on every path. The driver is returned only so that the contract
    can state that this fresh session was quit; the caller does not use it.
   */
  method FetchTwitterContent(page: Page) returns (e: Extraction, driver: Browser)
    ensures fresh(driver) && !driver.running
    ensures e == Classify(page)
  {
    driver := new Browser(page);
    var tweetText := driver.page.tweetText;
    if tweetText.None? {
      e := Failed;
    } else {
      var caption := Caption(tweetText.value);
      if caption.None? {
        e := Failed;
      } else if driver.page.hasVideo {
        match driver.page.converter {
          case Results(links) =>
            var videoLinks := CollectVideoLinks(links);
            e := if videoLinks.Some? then Extracted(caption.value, Video(videoLinks.value)) else Failed;
          case _ =>
            e := Failed;
        }
      } else if driver.page.imageSrcs != [] {
        e := Extracted(caption.value, Pictures(driver.page.imageSrcs));
      } else {
        e := Extracted(caption.value, NoMedia);
      }
    }
    driver.Quit();
  }

  /** The entry of a link whose text is a prefix ending in whitespace followed by one word. */
  lemma EntryAfterPrefix(prefix: string, word: string, href: string)
    requires prefix != [] && IsSpace(prefix[|prefix| - 1])
    requires word != [] && forall i :: 0 <= i < |word| ==> !IsSpace(word[i])
    ensures Entry(PanelLink(prefix + word, href)) ==
      if word == RedundantQuality then Some([]) else Some([Candidate(word, href)])
  {
    LastWordOfLabel(prefix, word);
  }

  /** A word after a prefix ending in whitespace is the text's last word. */
  lemma LastWordOfLabel(prefix: string, word: string)
    requires prefix != [] && IsSpace(prefix[|prefix| - 1])
    requires word != [] && forall i :: 0 <= i < |word| ==> !IsSpace(word[i])
    ensures LastWord(prefix + word) == Some(word)
  {
    var s := prefix + word;
    LastWordMeaning(s);
    assert !IsSpace(s[|s| - 1]);
    var j: nat, k: nat :| LastWordAt(s, j, k) && LastWord(s).value == s[j..k];
    assert LastWordAt(s, |prefix|, |s|);
    LastWordUnique(s, j, k, |prefix|, |s|);
    assert s[|prefix|..|s|] == word;
  }
}
