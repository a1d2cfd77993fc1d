/**
  The chat side of the bot: a post link goes through classification and either starts
  a quality selection (a video), is answered with a captioned media group (pictures),
  or gets a failure notice; a button press then resolves the selection.
  The chat transport is replaced by returned replies and outcomes, the channel
  membership check by a boolean input.
 */
module Bot {
  import opened Wrappers
  import opened Strings
  import opened Classifier
  import opened Download

  /** A message is taken for a post link when it mentions either domain anywhere in it. */
  function IsPostLink(text: string): (b: bool)
    ensures b <==> (exists i: nat :: OccursAt(text, "twitter.com", i)) || (exists i: nat :: OccursAt(text, "x.com", i))
  {
    Contains(text, "twitter.com") || Contains(text, "x.com")
  }

  // ---------------------------------------------------------------------------
  // Payloads
  // ---------------------------------------------------------------------------

  /** An inline keyboard button: what it shows and the callback data it sends back. */
  datatype Button = Button(text: string, callbackData: string)

  const QuitData: string := "quit"

  /** The quality menu: one button per candidate, sending its index, then the Quit button. */
  function Keyboard(links: seq<Candidate>): (keyboard: seq<Button>)
    ensures |keyboard| == |links| + 1
    ensures forall i :: 0 <= i < |links| ==> keyboard[i] == Button(links[i].quality, NatToString(i))
    ensures keyboard[|links|] == Button("Quit", QuitData)
  {
    seq(|links|, i requires 0 <= i < |links| => Button(links[i].quality, NatToString(i))) + [Button("Quit", QuitData)]
  }

  /** One photo of a media group. */
  datatype Photo = Photo(media: string, caption: Option<string>)

  /** A media group for the URLs, in their order, with the caption on the first photo only. */
  ghost predicate CaptionedGroup(media: seq<Photo>, urls: seq<string>, caption: string) {
    && |media| == |urls|
    && (forall i :: 0 <= i < |urls| ==> media[i].media == urls[i])
    && (forall i :: 0 <= i < |media| ==> media[i].caption == if i == 0 then Some(caption) else None)
  }

  /** The photo list of `handle_message`: one photo per URL, then the first one replaced by a captioned one. */
  method BuildPhotoMedia(imageUrls: seq<string>, caption: string) returns (photoMedia: seq<Photo>)
    requires imageUrls != []
    ensures CaptionedGroup(photoMedia, imageUrls, caption)
  {
    var media := new Photo[|imageUrls|](i requires 0 <= i < |imageUrls| => Photo(imageUrls[i], None));
    media[0] := Photo(imageUrls[0], Some(caption));
    photoMedia := media[..];
  }

  // ---------------------------------------------------------------------------
  // The per-user store
  // ---------------------------------------------------------------------------

  /** The framework's per-user `user_data` dictionary, with the two keys the bot uses. */
  class UserData {
    var videoLinks: Option<seq<Candidate>>
    var tweetText: Option<string>

    /** The two keys are only ever written together. */
    ghost predicate Valid()
      reads this
    {
      videoLinks.Some? <==> tweetText.Some?
    }

    constructor ()
      ensures Valid() && videoLinks.None? && tweetText.None?
    {
      videoLinks, tweetText := None, None;
    }
  }

  // ---------------------------------------------------------------------------
  // handle_message
  // ---------------------------------------------------------------------------

  /** What the bot answers a message with. */
  datatype Reply =
    | JoinChannel                          // the sender is not a channel member
    | NotPostLink                          // 'Please send a valid Twitter or X link.'
    | QualityMenu(keyboard: seq<Button>)   // the processing message turns into the quality menu
    | NoVideoFound                         // 'Could not find video in the given Twitter link.'
    | MediaGroup(media: seq<Photo>)        // the photos are sent and the processing message deleted
    | NoPicturesFound                      // 'Could not find pictures in the given Twitter link.'
    | NoMediaFound                         // 'Could not find any media in the given Twitter link.'

  /** The message leads to a stored selection: a member sent a post link whose page yields a non-empty video list. */
  predicate StoresSelection(isMember: bool, text: string, page: Page) {
    && isMember && IsPostLink(text)
    && Classify(page).Extracted? && Classify(page).content.Video?
    && Classify(page).content.links != []
  }

  /** The reply `handle_message` gives for an extraction result, the photo list aside. */
  ghost predicate RepliesTo(reply: Reply, e: Extraction) {
    match e
    case Failed => reply == NoMediaFound
    case Extracted(caption, Video(links)) => reply == if links == [] then NoVideoFound else QualityMenu(Keyboard(links))
    case Extracted(caption, Pictures(urls)) =>
      if urls == [] then reply == NoPicturesFound else reply.MediaGroup? && CaptionedGroup(reply.media, urls, caption)
    case Extracted(_, NoMedia) => reply == NoMediaFound
  }

  /**
    `handle_message`: `page` is what the browser would render for the message's link.
    A video with candidates overwrites the stored selection; nothing else touches it.
   */
  method HandleMessage(userData: UserData, isMember: bool, text: string, page: Page) returns (reply: Reply)
    requires userData.Valid()
    modifies userData
    ensures userData.Valid()
    ensures !isMember ==> reply == JoinChannel
    ensures isMember && !IsPostLink(text) ==> reply == NotPostLink
    ensures isMember && IsPostLink(text) ==> RepliesTo(reply, Classify(page))
    ensures StoresSelection(isMember, text, page) ==>
      && userData.videoLinks == Some(Classify(page).content.links)
      && userData.tweetText == Some(Classify(page).caption)
    ensures !StoresSelection(isMember, text, page) ==> unchanged(userData)
  {
    if !isMember {
      return JoinChannel;
    }
    if !IsPostLink(text) {
      return NotPostLink;
    }
    var content, driver := FetchTwitterContent(page);
    match content {
      case Extracted(tweetText, Video(videoLinks)) =>
        if videoLinks != [] {
          userData.videoLinks := Some(videoLinks);
          userData.tweetText := Some(tweetText);
          reply := QualityMenu(Keyboard(videoLinks));
        } else {
          reply := NoVideoFound;
        }
      case Extracted(tweetText, Pictures(imageUrls)) =>
        if imageUrls != [] {
          var photoMedia := BuildPhotoMedia(imageUrls, tweetText);
          reply := MediaGroup(photoMedia);
        } else {
          reply := NoPicturesFound;
        }
      case _ =>
        reply := NoMediaFound;
    }
  }

  // ---------------------------------------------------------------------------
  // choose_quality
  // ---------------------------------------------------------------------------

  /** What `choose_quality` decides from the callback data and the stored candidates. */
  datatype Choice =
    | Cancel          // the Quit button
    | NotAnInteger    // int() raises ValueError
    | NothingStored   // reading user_data['video_links'] raises KeyError
    | OutOfRange      // an integer outside the candidate list
    | Fetch(url: string)

  /**
    The transition of `choose_quality`: Quit before anything is read; then the data must
    parse as an integer, a selection must be stored, and the integer must index it.
   */
  function Decide(data: string, videoLinks: Option<seq<Candidate>>): (c: Choice)
    ensures c.Cancel? <==> data == QuitData
    ensures c.NotAnInteger? <==> data != QuitData && ParseInt(data).None?
    ensures c.NothingStored? <==> data != QuitData && ParseInt(data).Some? && videoLinks.None?
    ensures c.Fetch? <==>
      && data != QuitData && ParseInt(data).Some? && videoLinks.Some?
      && 0 <= ParseInt(data).value < |videoLinks.value|
    ensures c.Fetch? ==> c.url == videoLinks.value[ParseInt(data).value].url
  {
    if data == QuitData then Cancel
    else
      match ParseInt(data)
      case None => NotAnInteger
      case Some(choice) =>
        match videoLinks
        case None => NothingStored
        case Some(links) => if 0 <= choice < |links| then Fetch(links[choice].url) else OutOfRange
  }

  /** Every button of the menu does what it shows: candidate i fetches that candidate's URL, the last one quits. */
  lemma KeyboardChoice(links: seq<Candidate>, j: nat)
    requires j <= |links|
    ensures Decide(Keyboard(links)[j].callbackData, Some(links)) ==
      if j < |links| then Fetch(links[j].url) else Cancel
  {
    if j < |links| {
      ParseNatToString(j);
      assert NatToString(j)[0] != 'q';
    }
  }

  /** A stored selection accepts an integer token exactly when it indexes a candidate. */
  lemma AcceptsExactlyIndices(links: seq<Candidate>, n: int)
    ensures Decide(IntToken(n), Some(links)) ==
      if 0 <= n < |links| then Fetch(links[n].url) else OutOfRange
  {
    if n >= 0 {
      ParseNatToString(n);
      assert NatToString(n)[0] != 'q';
    } else {
      ParseNegative(-n);
    }
  }

  /** `str(n)` for any integer. */
  function IntToken(n: int): string {
    if n >= 0 then NatToString(n) else "-" + NatToString(-n)
  }

  /** How a button press ends. */
  datatype Outcome =
    | Cancelled                               // 'Process cancelled. ...'
    | InvalidInput                            // 'Invalid input. Please select a valid option.'
    | InvalidChoice                           // 'Invalid choice. Please select a valid option.'
    | Crashed                                 // the KeyError escapes the handler; no reply
    | DownloadFailed                          // 'Failed to download video.'
    | VideoSent(video: seq<byte>, caption: string) // the file is sent with the caption, then 'Video sent successfully.'

  /**
    `choose_quality`: `resp` is what the server answers for the chosen URL. The stored
    selection is read but never changed, whatever the outcome.
   */
  method ChooseQuality(userData: UserData, disk: Disk, data: string, resp: Response) returns (outcome: Outcome)
    requires userData.Valid()
    modifies disk
    ensures unchanged(userData)
    ensures match Decide(data, userData.videoLinks)
      case Cancel => outcome == Cancelled && unchanged(disk)
      case NotAnInteger => outcome == InvalidInput && unchanged(disk)
      case NothingStored => outcome == Crashed && unchanged(disk)
      case OutOfRange => outcome == InvalidChoice && unchanged(disk)
      case Fetch(url) =>
        && outcome == (if Succeeds(url, resp) then VideoSent(Concat(resp.chunks), userData.tweetText.value) else DownloadFailed)
        && disk.files == if Writes(url, resp) then old(disk.files)[LastSegment(url) := Concat(resp.chunks)] else old(disk.files)
  {
    if data == QuitData {
      return Cancelled;
    }
    var userChoice := ParseInt(data);
    if userChoice.None? {
      return InvalidInput;
    }
    if userData.videoLinks.None? {
      return Crashed;
    }
    var videoLinks := userData.videoLinks.value;
    if !(0 <= userChoice.value < |videoLinks|) {
      return InvalidChoice;
    }
    var videoUrl := videoLinks[userChoice.value].url;
    var videoPath := DownloadFile(disk, videoUrl, resp);
    if videoPath.Some? && videoPath.value != "" {
      outcome := VideoSent(disk.files[videoPath.value], userData.tweetText.value);
    } else {
      outcome := DownloadFailed;
    }
  }
}
