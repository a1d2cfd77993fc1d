# tweet_downloader: a verified model of the extraction-and-selection core

The bot takes a Twitter/X link sent in a chat and finds the post's media with a headless browser. A video post goes to a conversion site, which lists download links by quality. The user picks one with an inline keyboard, and the bot downloads that rendition and sends it with the post's caption. A picture post is sent back at once as one media group, captioned on the first photo.

This project models the deterministic logic of that flow in Dafny and proves properties about it:

- **Classification** (`fetch_twitter_content`). The rendered page is an input snapshot: the tweet-text node's children, a video flag, the photo `src`s, and the conversion site's outcome. The result is the caption with video / pictures / no media, or the error result.
- **Caption reconstruction.** The caption is built from the tweet-text node's top-level children: a string stays as it is, a top-level `img` gives its `alt`, and any other element gives its text content.
- **Quality list.** Each panel link's label is its text's last whitespace-separated word. The loop drops every entry labelled `1280x720` and keeps the rest in discovery order.
- **Per-user store** (`context.user_data`). It is a class with the fields `videoLinks` and `tweetText`. `handle_message` overwrites them for a video with at least one link. `choose_quality` reads them and never changes them.
- **Payloads.** The quality keyboard has one button per candidate, with callback `str(i)`, then `Quit`. The photo media group carries the caption on its first item only.
- **`download_file`.** The local name is the URL's last `/`-separated segment. The file is created and then grows chunk by chunk from the response stream. The function returns the name on success and `None` on any failure.

The model also covers the Python builtins the logic relies on:
- `str.split()[-1]`, split on Python's whitespace set;
- `in` on strings;
- `str(n)`;
- base-10 `int(s)`, with surrounding whitespace, an optional sign and underscores. `int()` ignores a smaller whitespace set than `split()`: it does not skip the separators U+001C..U+001F.
- `str.split('/')[-1]`.

Modules: `Wrappers` (Option), `Strings` (the Python string operations), `Markup` (caption), `Classifier` (classification, quality loop, browser session), `Download` (file name, chunked write, `Disk`), `Bot` (user data, keyboard, media group, `handle_message`, `choose_quality`), `Scenarios` (worked examples on concrete inputs).

## Model

| member | source | states |
|---|---|---|
| `Strings.IsSpace` | tweet_downloader.py:91 | the whitespace set of `str.split()`: ASCII space, `\t`..`\r`, the separators U+001C..U+001F, and the Unicode spaces U+0085, U+00A0, U+1680, U+2000..U+200A, U+2028, U+2029, U+202F, U+205F and U+3000 |
| `Strings.IsIntSpace` | tweet_downloader.py:178 | the whitespace `int()` skips around a number: the `split()` set without U+001C..U+001F |
| `Strings.IntSpaceWithinSpace` | tweet_downloader.py:178 | every character `int()` skips is `split()` whitespace, and the two sets differ exactly in U+001C..U+001F |
| `Strings.LastWord` | tweet_downloader.py:91 | `link.text.split()[-1]`. Its meaning is stated by `Strings.LastWordMeaning` and `Strings.LastWordUnique` |
| `Strings.LastWordMeaning` | tweet_downloader.py:91 | `split()[-1]` is None (IndexError) exactly when the text is all whitespace; otherwise it is the non-empty, whitespace-free run that only whitespace follows and whitespace or the start precedes |
| `Strings.LastWordUnique` | tweet_downloader.py:91 | that run's position is unique, so the last word is determined by the text |
| `Strings.Contains` | tweet_downloader.py:132 | `sub in s` holds exactly when `sub` occurs in `s` at some position |
| `Bot.IsPostLink` | tweet_downloader.py:132 | the message counts as a post link exactly when "twitter.com" or "x.com" occurs somewhere in it |
| `Strings.NatToString` | tweet_downloader.py:142 | `str(i)` is a non-empty run of decimal digits with no leading zero |
| `Strings.DigitsValueOfNatToString` | tweet_downloader.py:142 | the digits of `str(n)` spell `n` |
| `Strings.ParseInt` | tweet_downloader.py:178 | `int(query.data)` in base 10, None being the ValueError. Its meaning is stated by `Strings.ParseNatToString`, `Strings.ParseNegative`, `Strings.ParseNeedsDigit` and `Strings.ParseRejectsSeparator` |
| `Strings.IntStrip` | tweet_downloader.py:178 | the whitespace `int()` skips: the result has no such character at either end, is empty exactly when the token is all such whitespace, and keeps a leading character that is not whitespace |
| `Strings.IntStripIsMiddle` | tweet_downloader.py:178 | the strip removes only `int()` whitespace, and only from the two ends: the result is the contiguous middle `s[p..len(s) - q]` of the token, with whitespace in the first p and last q characters |
| `Strings.ParseNatToString` | tweet_downloader.py:178 | `int(str(n)) == n` for every natural `n`: every index the keyboard sends parses back to itself |
| `Strings.ParseSigned` | tweet_downloader.py:178 | a '+' or '-' directly before well-formed digits gives their value, negated for '-' |
| `Strings.ParseNegative` | tweet_downloader.py:178 | `int('-' + str(n)) == -n`: a negative token is an integer, not a ValueError |
| `Strings.ParseNeedsDigit` | tweet_downloader.py:194 | a token without any digit raises ValueError in `int()` |
| `Strings.ParseRejectsSeparator` | tweet_downloader.py:178 | a token led by one of U+001C..U+001F raises ValueError, although `split()` treats that character as whitespace |
| `Strings.LastSegment` | tweet_downloader.py:113 | `url.split('/')[-1]` holds no '/', is no longer than the URL, is preceded by '/' unless it is the whole URL, and is the whole URL when it has no '/' |
| `Strings.LastSegmentIsSuffix` | tweet_downloader.py:113 | the name is the end of the URL, so with `Strings.LastSegment` it is exactly the text after the last '/' |
| `Strings.LastSegmentAfterSlash` | tweet_downloader.py:113 | whatever precedes the last '/' has no effect on the name |
| `Markup.GetText` | tweet_downloader.py:74 | `get_text()`: every string below the node in document order; attributes, `alt` included, play no part. Stated by `Markup.GetTextAllAppend` and `Markup.GetTextOfEmptyElement` |
| `Markup.GetTextAllAppend` | tweet_downloader.py:74 | the text of consecutive runs of nodes is their texts one after the other, in document order |
| `Markup.GetTextOfEmptyElement` | tweet_downloader.py:74 | an element without children has empty text whatever its `alt` attribute holds |
| `Markup.Contribution` | tweet_downloader.py:74 | a non-image child contributes its text content; a top-level `img` contributes its `alt`, and one without `alt` fails (KeyError) |
| `Markup.Caption` | tweet_downloader.py:74 | building the caption fails exactly when some top-level `img` child has no `alt` |
| `Markup.CaptionAppend` | tweet_downloader.py:74 | the caption of consecutive children is the two parts' captions concatenated in order, and fails when either part fails |
| `Markup.CaptionSingle` | tweet_downloader.py:74 | a single child's caption is its own contribution |
| `Markup.CaptionWithoutImages` | tweet_downloader.py:74 | with no top-level image, the caption is the node's whole text content: nested images, `alt` included, contribute nothing |
| `Markup.CaptionOfImage` | tweet_downloader.py:74 | a top-level image with an `alt` stands exactly for that `alt` between the captions of what precedes and follows it |
| `Classifier.Entry` | tweet_downloader.py:90-95 | one link adds nothing when its label is `1280x720`, adds `[label, href]` otherwise, and fails when its text has no word |
| `Classifier.QualityList` | tweet_downloader.py:88-95 | the list fails exactly when some link's text has no word; otherwise it is no longer than the panel and contains no `1280x720` entry |
| `Classifier.QualityListAppend` | tweet_downloader.py:89-95 | the list for two runs of links is the two lists one after the other (discovery order kept, no reordering) |
| `Classifier.QualityListSingle` | tweet_downloader.py:89-95 | one link gives exactly its own entry |
| `Classifier.QualityListKeeps` | tweet_downloader.py:93-95 | every link whose label is not `1280x720` appears in the list as `[label, href]` |
| `Classifier.CollectVideoLinks` | tweet_downloader.py:88-95 | the appending loop computes exactly the quality list, returning the error as soon as a link has no word |
| `Classifier.Classify` | tweet_downloader.py:67-108 | error exactly when the tweet text is missing, the caption fails, or (for a video) the conversion site fails or the list fails; otherwise the caption is kept and the content is video iff a video is present, else pictures with the `src`s in order when there are any, else none |
| `Classifier.VideoIgnoresImages` | tweet_downloader.py:77-103 | once a video is present the images never affect the result |
| `Classifier.PicturesIgnoreConverter` | tweet_downloader.py:78-103 | without a video the conversion site never affects the result |
| `Classifier.EntryAfterPrefix` | tweet_downloader.py:91-95 | a link text ending in whitespace followed by one word gets that word as its label |
| `Classifier.Browser.constructor` | tweet_downloader.py:65 | a new browser session is running and shows the given page |
| `Classifier.Browser.Quit` | tweet_downloader.py:110 | quitting ends the session |
| `Classifier.FetchTwitterContent` | tweet_downloader.py:51-110 | returns the classification of the page and quits its own fresh browser on every path |
| `Download.IsErrorStatus` | tweet_downloader.py:116 | `raise_for_status()` raises for exactly the 4xx and 5xx statuses. `Download.DownloadFile` states what follows from it |
| `Download.CanOpen` | tweet_downloader.py:117 | the names `open(name, 'wb')` rejects whatever the directory holds: the empty name, ".", "..", names containing NUL, and names longer than 255 bytes in UTF-8 (ENAMETOOLONG). `Download.DownloadFile` states what follows from it |
| `Download.Utf8Size` | tweet_downloader.py:117 | the encoded length of a file name lies between its length in characters and four times that length |
| `Download.LongNameRejected` | tweet_downloader.py:113-123 | a URL whose last segment has more than 255 characters never gets a file and always returns None, whatever the server answers |
| `Download.Concat` | tweet_downloader.py:118-119 | the chunks joined in order. Its meaning is stated by `Download.ConcatAppend`, `Download.ConcatSize` and `Download.ConcatAt` |
| `Download.ConcatAppend` | tweet_downloader.py:118-119 | writing two runs of chunks writes their contents one after the other |
| `Download.ConcatSize` | tweet_downloader.py:118-119 | the file size is the sum of the chunk sizes |
| `Download.ConcatAt` | tweet_downloader.py:118-119 | byte k of chunk i lands in the file right after everything the earlier chunks wrote |
| `Download.Disk.Create` | tweet_downloader.py:117 | `open(name, 'wb')` leaves that file empty and every other file as it was |
| `Download.Disk.Write` | tweet_downloader.py:119 | `f.write(chunk)` appends the chunk to that file and changes nothing else |
| `Download.WriteChunks` | tweet_downloader.py:118-119 | the write loop leaves the opened file holding the chunks joined in order, and no other file changed |
| `Download.DownloadFile` | tweet_downloader.py:112-123 | returns the URL's last segment exactly when the request succeeds, the status is not an error, the name can be opened and the stream completes, else None; the file then holds the chunks concatenated in order, and a stream that breaks off leaves what was written |
| `Bot.Keyboard` | tweet_downloader.py:141-146 | one button per candidate, button i showing the quality and sending `str(i)`, then `Quit` sending `quit`: `len(links) + 1` buttons |
| `Bot.BuildPhotoMedia` | tweet_downloader.py:157-158 | the media group has the URLs in order, the caption on photo 0 and no caption on any other photo |
| `Bot.UserData.constructor` | tweet_downloader.py:138-139 | a new user's store holds neither key, and `Valid()` holds: the two keys are only written together |
| `Bot.HandleMessage` | tweet_downloader.py:125-167 | non-members are told to join; a text that mentions neither domain is rejected; otherwise the reply follows the classification, and only a video with at least one candidate overwrites both stored keys |
| `Bot.Decide` | tweet_downloader.py:173-195 | `quit` cancels without reading the store; then a non-integer is invalid input, a missing store is a KeyError, and an integer fetches `video_links[i][1]` iff `0 <= i < len(video_links)` |
| `Bot.KeyboardChoice` | tweet_downloader.py:178-181 | pressing menu button j fetches candidate j's URL, and the last button cancels |
| `Bot.AcceptsExactlyIndices` | tweet_downloader.py:178-180 | any integer token is accepted exactly when it indexes a stored candidate, negative integers included among the rejected ones |
| `Bot.ChooseQuality` | tweet_downloader.py:169-195 | the outcome follows the decision; a fetch sends the downloaded bytes with the stored caption or reports a failed download; the stored selection is never changed |
| `Scenarios.RedundantRenditionFiltered` | tweet_downloader.py:89-95 | a panel of 720p, 1280x720 and 480p gives `[720p, u1], [480p, u3]` |
| `Scenarios.VideoPostOffersTwoRenditions` | tweet_downloader.py:67-97 | that video post, captioned "hello", is classified as a video with those two candidates and the caption kept, and gets a three-button menu |
| `Scenarios.RetryAfterOutOfRange` | tweet_downloader.py:178-193 | with two candidates, "99" is an invalid choice and "0" fetches the first candidate |
| `Scenarios.SeparatorTokenIsInvalidInput` | tweet_downloader.py:178-195 | the callback data "\x1c0" is invalid input, not a choice of candidate 0 |
| `Scenarios.QuitWithoutSelection` | tweet_downloader.py:173-175 | quit with nothing stored cancels and does not raise |
| `Scenarios.PicturePostCaptionsFirstOnly` | tweet_downloader.py:151-160 | three pictures captioned "pic" give one group of three photos, the caption on the first only |
| `Scenarios.MissingTextIsError` | tweet_downloader.py:70 | a post with no tweet-text node is the error result, media or not |
| `Scenarios.OtherSitePassesLinkTest` | tweet_downloader.py:132 | the domain test is a substring test: "https://netflix.com/" passes it |

## Behaviour of the code worth knowing

- The stored selection is never cleared: not on success, not on quit, not after an invalid choice (tweet_downloader.py:173-195). It lasts until the next video link overwrites it, so a second button press after a successful download downloads again. The edit at line 189 sends no `reply_markup`, which removes the buttons from the menu it answers. The repeat download therefore comes from a press queued before that edit, or from an older menu that still shows buttons. That press's index is read against the most recently stored list.
- A non-integer token gives "Invalid input" (line 194). An out-of-range integer gives a separate "Invalid choice" (line 193).
- An integer token with nothing stored raises KeyError at line 179. The KeyError escapes, because only `ValueError` is caught (line 194). The model calls this `Bot.Outcome.Crashed`.
- A post without a tweet-text node within the wait, such as a media-only post, is the error result (lines 70 and 106-108). The code does not tell absence apart from failure.
- A download whose stream breaks off leaves the partly written file behind (lines 118-121).

## Left out

- Browser setup, Chrome options, the user agent and navigation (lines 52-65, 80-87) are replaced by the `Classifier.Page` snapshot. The snapshot also replaces HTML parsing into `Markup.Node` and how Selenium renders `link.text`.
- A failure to start the browser at line 65 is left out. It lies outside the `try` and would escape `fetch_twitter_content`.
- `get_attribute` returning None for a missing `src` or `href` is left out: both are modelled as strings.
- The Telegram calls (`reply_text`, `edit_text`, `send_media_group`, `send_video`, `query.answer`, message deletion) are returned as `Bot.Reply` and `Bot.Outcome` values.
- `start`, the conversation-handler wiring in `main` and the bot's return values to the framework are left out. They are process bootstrap.
- `is_user_member_of_channel` is a remote call. Its result is the boolean `isMember`.
- Real HTTP and file I/O are left out. `Download.Response` stands for the server's answer to the chosen URL.
- `Download.Response` does not bound chunk sizes by the 8192-byte `chunk_size`. The file contents do not depend on the chunking.
- `Download.CanOpen` only covers the names `open()` rejects regardless of the directory. It assumes a Linux file system with a 255-byte name limit and UTF-8 file names. Other name limits, permission errors and a directory with the same name are properties of the environment and are not modelled.
- `Strings.ParseInt` handles ASCII digits only. Python's `int()` also accepts other Unicode decimal digits.
- `Strings.ParseInt` does not model CPython's limit of 4300 digits for string-to-integer conversion, where `int()` raises ValueError. The bot's own callback tokens are `str(i)` for a candidate index, and Telegram callback data holds at most 64 bytes, so the limit is never reached.
- `async` scheduling, concurrent requests and file-name collisions between concurrent downloads are left out.
- Logging, dotenv configuration and the unused `trademark_text` are left out.
- No expiry or clearing of the stored selection is modelled, because the code has neither.
