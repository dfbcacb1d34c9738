# Zeitkammerblick frontend: albums page and image gallery

This project models the client-side state of the Zeitkammerblick photo-album
web client. The client has two pages:

- **The albums page** holds the signed-in user's albums. It also holds the
  create, edit and share forms and a single error message.
- **The image gallery** holds the images of one album (the "working set"),
  the favorites and tag views that decide which list is fetched, and the
  upload form.

Each page is a Dafny `class` whose fields are the page's state variables.
Each event handler is one method.

- A handler takes the server's reply as a parameter. It returns the
  requests it sent and updates the fields the way the page does. One
  request and its reply are one atomic step.
- Every method states the page's whole new state. It does this through a
  `View()` record of all the fields.
- The list updates, the comma-list parser, the address check, the JSON
  encoding of the tag list and the choice of fetch are pure functions.
  Lemmas relate each one to an independent description of it.

Modules:

- `Replies`: a server reply is `Ok(payload)` or `Err(failure)`. A failure
  carries the optional error body and the transport message. This module
  also models JavaScript's `a || b` fallback, under which `""` counts as
  missing.
- `Text`: the JavaScript string operations the pages use.
  - `trim()`, with the ECMAScript whitespace set (the same set `\s`
    matches).
  - `split(',')`, under which `""` gives `[""]`.
  - `join`.
  - The list parser `split(',').map(trim).filter(x => x !== '')`. Proved:
    - it keeps input order (the list of `a,b` is the list of `a` followed
      by the list of `b`);
    - every element is non-empty, trimmed and comma-free;
    - it is empty exactly when the input holds only whitespace and commas.
  - The edit form's join-then-split round trip. It gives the list back
    exactly when the list is non-empty and every entry is trimmed and
    comma-free. An album with no shared users is saved back as `[""]`.
- `Email`: the share form's test `^[^\s@]+@[^\s@]+\.[^\s@]+$`, written as
  a character-level predicate. It is proved equivalent to the pattern read
  as a decomposition `A@B.C`.
- `Json`: `JSON.stringify` of an array of strings, and a decoder. The
  decoder is proved to give the strings back.
- `Albums`: the albums page (`AlbumsPage.js`).
- `Gallery`: the image gallery (`ImageGallery.js`).
- `Sequences`: two regrouping facts about concatenation, used by the
  proofs.

Behaviours the model keeps as the code has them:

- **The create form loses its shared-users field.** A successful create
  resets the form to a name and a description only. The next submit then
  fails on the missing field before any request is sent.
  `Albums.CreateTwice` shows this sequence.
- **Clearing the tag filter does not restore favorites.** A blank tag
  filter fetches all images even while the favorites view is on, so
  clearing the filter does not bring the favorites view back.
  `Gallery.FavoritesThenTagThenClear` shows this.
- **Update failures show a fixed message; delete failures prefer the
  server's.** A failed update always shows "You are not authorized to do
  so". A failed delete shows the server's `error` field when present, and
  that fixed message only otherwise.
- **A missing favorite id gives the fixed message.** When the id is not in
  the list, the favorite toggle fails before any request (reading
  `isFavorite` of `undefined`). It then shows the fixed message.
- **An upload is shown whatever the view.** A successful upload is
  appended to the working set even when it does not match the active
  favorites or tag view.

## Model

| member | source | states |
|---|---|---|
| Replies.ServerError | src/pages/AlbumsPage.js:106 | the server's `error` field when it is present and non-empty, otherwise the given fallback (also when there was no response at all) |
| Replies.ServerMessage | src/pages/AlbumsPage.js:32 | the server's `message` field when present and non-empty, otherwise the transport error's own message |
| Replies.Or | src/pages/AlbumsPage.js:32 | the fallback of a logical or: the value when it is present and non-empty, otherwise the fallback; the result is empty exactly when both are |
| Text.Trim | src/pages/AlbumsPage.js:89 | the result is trimmed, is a contiguous piece of the input with only whitespace cut from either end, and is empty exactly when the input is all whitespace |
| Text.TrimKeeps | src/pages/AlbumsPage.js:89 | trimming introduces no character |
| Text.TrimOfTrimmed | src/pages/ImageGallery.js:71 | trimming a trimmed string changes nothing, so the tag the effect trims twice is sent trimmed once |
| Text.TrimLeadingWhitespace | src/pages/AlbumsPage.js:124 | a leading whitespace character does not change the trimmed result |
| Text.Split | src/pages/AlbumsPage.js:88 | there is at least one piece, and no piece contains the separator |
| Text.JoinSplit | src/pages/AlbumsPage.js:88 | joining the pieces with the separator gives the input back |
| Text.Join | src/pages/AlbumsPage.js:135 | no pieces give the empty string; otherwise the result starts with the first piece and has the length of all pieces with one separator between each two; SplitJoin and EditRoundTrip give the pieces back |
| Text.SplitJoin | src/pages/AlbumsPage.js:122-124 | splitting the join of a non-empty list of separator-free pieces gives the pieces back |
| Text.SplitConcat | src/pages/AlbumsPage.js:88 | the pieces of `a,b` are the pieces of `a` followed by those of `b` |
| Text.SplitNoSeparator | src/pages/AlbumsPage.js:88 | input without the separator is one piece |
| Text.TrimAll | src/pages/AlbumsPage.js:89 | same length; each element is the trimmed input element at that position |
| Text.TrimAllConcat | src/pages/AlbumsPage.js:89 | trimming each element commutes with concatenation |
| Text.DropEmpty | src/pages/AlbumsPage.js:90 | a string is kept exactly when it was in the input and is non-empty |
| Text.DropEmptyConcat | src/pages/AlbumsPage.js:90 | dropping empties keeps the order of the rest |
| Text.SplitTrim | src/pages/AlbumsPage.js:122-124 | at least one piece; each piece is trimmed and comma-free (empty pieces kept) |
| Text.ParseList | src/pages/AlbumsPage.js:87-90 | every element is non-empty, trimmed and comma-free |
| Text.ParseListPiece | src/pages/AlbumsPage.js:87-90 | a comma-free input gives nothing when blank, else exactly its trimmed text |
| Text.ParseListConcat | src/pages/AlbumsPage.js:87-90 | the pieces come out in input order: the list of `a,b` is the list of `a` followed by the list of `b` |
| Text.ParseListEmpty | src/pages/AlbumsPage.js:87-90 | the list is empty exactly when the input holds only whitespace and commas |
| Text.EditRoundTrip | src/pages/AlbumsPage.js:120-137 | joining an album's shared users with ", " for editing and splitting them back on save gives the same list exactly when it is non-empty and every entry is trimmed and comma-free |
| Email.EmailPatternEquivalence | src/pages/AlbumsPage.js:92 | the character-level test accepts exactly the strings of the form A@B.C with A, B, C non-empty runs free of whitespace and '@' |
| Email.IsValidEmail | src/pages/AlbumsPage.js:92 | an accepted address has at least five characters, does not start with '@' and contains '@'; EmailPatternEquivalence proves the test is the regular expression |
| Email.InvalidEmails | src/pages/AlbumsPage.js:93 | a candidate is reported exactly when it is in the list and fails the test |
| Email.InvalidEmailsConcat | src/pages/AlbumsPage.js:93 | the rejected candidates are reported in input order |
| Json.HexRoundTrip | src/pages/ImageGallery.js:87 | the lower-case hex digit written for a value reads back as that value |
| Json.DecodeEscapeChar | src/pages/ImageGallery.js:87 | the escape written for a character decodes to that character, taking exactly its length |
| Json.ReadEscaped | src/pages/ImageGallery.js:87 | the escaped body of a string, closed by a quote, reads back to the string with the rest left over |
| Json.ParseStringify | src/pages/ImageGallery.js:87 | decoding the JSON text of a string array gives exactly that array back, in order |
| Json.Stringify | src/pages/ImageGallery.js:87 | the text is bracketed by '[' and ']' and is exactly "[]" for no tags; ParseStringify decodes it back to the tags |
| Albums.ReplaceById | src/pages/AlbumsPage.js:61 | same length; every entry with that id becomes the server's album, every other entry stays in place |
| Albums.ReplaceByIdIdempotent | src/pages/AlbumsPage.js:61 | applying the same update reply twice changes nothing more |
| Albums.ReplaceAbsentId | src/pages/AlbumsPage.js:61 | an update for an id not in the list leaves the list as it is |
| Albums.RemoveById | src/pages/AlbumsPage.js:75 | an album remains exactly when it was there and has another id |
| Albums.RemoveByIdConcat | src/pages/AlbumsPage.js:75 | the remaining albums keep their order |
| Albums.RemoveAbsentId | src/pages/AlbumsPage.js:75 | deleting an id not in the list leaves the list as it is |
| Albums.AlbumsPage.constructor | src/pages/AlbumsPage.js:17-23 | empty list, no error, not loading, empty create form with an empty shared-users field, no edit or share form |
| Albums.AlbumsPage.FetchAlbums | src/pages/AlbumsPage.js:25-36 | one list request; success replaces the list wholesale and clears the error; failure keeps the list and shows the server or transport message; loading ends false |
| Albums.AlbumsPage.CreateAlbum | src/pages/AlbumsPage.js:38-55 | the request carries the given id, name and description; success appends exactly the server's album and resets the form without its shared-users field; failure keeps list and form |
| Albums.AlbumsPage.HandleCreateAlbum | src/pages/AlbumsPage.js:112-118 | a submit throws, sending nothing and changing nothing, exactly when the form has no shared-users field; otherwise it is the create of the form's name and description |
| Albums.AlbumsPage.UpdateAlbum | src/pages/AlbumsPage.js:57-69 | success replaces exactly the entries with that id and closes the edit form; any failure keeps the list and shows the fixed not-authorized message |
| Albums.AlbumsPage.HandleUpdateAlbum | src/pages/AlbumsPage.js:120-130 | with no album being edited it throws and sends nothing; otherwise the edited album is sent with its shared-users text split and trimmed |
| Albums.AlbumsPage.HandleEditClick | src/pages/AlbumsPage.js:132-137 | opens the edit form on the album with its shared users joined by ", ", nothing else changes |
| Albums.AlbumsPage.DeleteAlbum | src/pages/AlbumsPage.js:71-82 | success removes exactly the entries with that id and clears the error; failure keeps the list and shows the server's `error` or the fixed message |
| Albums.AlbumsPage.ShareAlbum | src/pages/AlbumsPage.js:84-110 | the rejected candidates are exactly the malformed parsed addresses; if any, nothing is sent and only loading changes; otherwise one share request carries the whole parsed list; success closes the share form and refetches; failure shows the server's `error` or the fixed sharing message; loading ends false |
| Albums.AlbumsPage.StartUp | src/pages/AlbumsPage.js:143-159 | a non-empty URL token is persisted and wins; with a token the list is fetched, without one nothing is sent and the error is "You must log in" |
| Albums.AlbumsPage.SetNewAlbumName | src/pages/AlbumsPage.js:174 | only the form's name changes; a missing shared-users field stays missing |
| Albums.AlbumsPage.SetNewAlbumDescription | src/pages/AlbumsPage.js:183 | only the form's description changes |
| Albums.AlbumsPage.SetEditingName | src/pages/AlbumsPage.js:207 | only the edit form's name changes |
| Albums.AlbumsPage.SetEditingDescription | src/pages/AlbumsPage.js:214 | only the edit form's description changes |
| Albums.AlbumsPage.CancelEdit | src/pages/AlbumsPage.js:218 | only the edit form closes |
| Albums.AlbumsPage.HandleShareClick | src/pages/AlbumsPage.js:139-141 | only the share form opens, on that album |
| Albums.AlbumsPage.SetShareEmails | src/pages/AlbumsPage.js:230 | only the share text changes |
| Albums.AlbumsPage.CancelShare | src/pages/AlbumsPage.js:236 | only the share form closes |
| Albums.AlbumsPage.DismissError | src/pages/AlbumsPage.js:194 | the error becomes the empty string; nothing else changes |
| Albums.CreateTwice | src/pages/AlbumsPage.js:112-118 | after a successful create, the next submit throws and sends nothing, whatever name was typed in between |
| Albums.TwoAddresses | src/pages/AlbumsPage.js:87-90 | two trimmed comma-free addresses typed as "first, second" parse to exactly those two, in order |
| Albums.ShareWithMalformed | src/pages/AlbumsPage.js:93-98 | one well-formed and one malformed address: nothing is sent and only the malformed one is reported |
| Albums.ShareWithTwo | src/pages/AlbumsPage.js:100 | two well-formed addresses: nothing is rejected, and the requests are exactly one share request carrying both, followed by the album-list refresh exactly when the share succeeded |
| Gallery.FindImage | src/pages/ImageGallery.js:109 | none exactly when no image has the id; otherwise the first image with that id |
| Gallery.ToggleById | src/pages/ImageGallery.js:114-120 | same length; the favorite flag flips on exactly the images with that id, every other image is unchanged |
| Gallery.ToggleTwice | src/pages/ImageGallery.js:114-120 | two successful toggles of the same id restore the list |
| Gallery.SetCommentsById | src/pages/ImageGallery.js:132-139 | same length; exactly the images with that id get the server's comment list, nothing else changes |
| Gallery.RemoveImageById | src/pages/ImageGallery.js:148 | an image remains exactly when it was there and has another id |
| Gallery.RemoveImageConcat | src/pages/ImageGallery.js:148 | the remaining images keep their order |
| Gallery.RequestsFor | src/pages/ImageGallery.js:49-73 | toggling favorites fetches by the new flag, whatever the tag filter; a tag-filter change fetches nothing if the value is unchanged, all images if the new value is blank (even in the favorites view), otherwise by the trimmed tag |
| Gallery.TagFetch | src/pages/ImageGallery.js:60 | a by-tag request for the album whose tag is trimmed, and empty exactly when the given tag is blank |
| Gallery.FavoritesEffect | src/pages/ImageGallery.js:49-55 | the favorites request exactly when the favorites view is on, otherwise the all-images request, for the album |
| Gallery.TagEffect | src/pages/ImageGallery.js:67-73 | the all-images request exactly when the filter is blank, otherwise the by-tag request with the filter trimmed once, even though the code trims it twice |
| Gallery.TagClickRequests | src/pages/ImageGallery.js:228-231 | a tag click fetches by the trimmed tag at once, adds the effect's fetch exactly when the filter changed, and for a non-blank tag every fetch is by that tag |
| Gallery.ApplyListIdempotent | src/pages/ImageGallery.js:30-37 | the same list reply applied twice leaves what it left once |
| Gallery.ApplyList | src/pages/ImageGallery.js:33-35 | only the images and the error can change; success makes the images the reply's list (empty when missing) and keeps the error; failure keeps the images and shows the server's `error` or the fallback; ApplyListIdempotent gives its partner |
| Gallery.ImageGallery.constructor | src/pages/ImageGallery.js:7-14 | no images, not uploading, empty error, all-images view, empty filter and tags, no file |
| Gallery.ImageGallery.ApplyListReply | src/pages/ImageGallery.js:33-35 | success replaces the working set wholesale (a missing list gives the empty one) and keeps the error; failure keeps the images and overwrites the error |
| Gallery.ImageGallery.FetchImages | src/pages/ImageGallery.js:30-37 | one all-images request; the reply is folded in with the fixed fallback "Failed to fetch images" |
| Gallery.ImageGallery.FetchFavoriteImages | src/pages/ImageGallery.js:39-48 | one favorites request; the reply is folded in with its own fallback |
| Gallery.ImageGallery.FetchImagesByTag | src/pages/ImageGallery.js:57-66 | one by-tag request with the trimmed tag; the reply is folded in with its own fallback |
| Gallery.ImageGallery.Mount | src/pages/ImageGallery.js:26-73 | mounting fetches all images three times (the album effect and both view effects) and folds the three answers in issue order; one answer to all three leaves it applied once |
| Gallery.ImageGallery.ToggleFavoritesView | src/pages/ImageGallery.js:49-55 | the flag flips and the fetch is the one the selection function gives for the old state |
| Gallery.ImageGallery.ChangeTagFilter | src/pages/ImageGallery.js:67-73 | the fetch is the one the selection function gives; an unchanged value changes nothing |
| Gallery.ImageGallery.ClickTag | src/pages/ImageGallery.js:228-231 | the filter becomes the trimmed tag; the direct fetch's answer and then, when the filter changed, the effect fetch's answer are applied in issue order; for a non-blank tag the same answer to both fetches leaves it applied once |
| Gallery.ImageGallery.SelectFile | src/pages/ImageGallery.js:165 | only the selected file changes |
| Gallery.ImageGallery.SetTagsInput | src/pages/ImageGallery.js:174 | only the tags text changes |
| Gallery.ImageGallery.HandleImageUpload | src/pages/ImageGallery.js:76-105 | without a file nothing is sent or changed; otherwise the tags field is the JSON array of the parsed tags; success appends exactly the server's image and clears the inputs; failure keeps the images; uploading ends false |
| Gallery.ImageGallery.ToggleFavorite | src/pages/ImageGallery.js:107-124 | an unknown id sends nothing and shows the fixed message; otherwise the request carries the first match's flag inverted, and success flips the flag on exactly the images with that id |
| Gallery.ImageGallery.AddComment | src/pages/ImageGallery.js:126-143 | one comment request with the text; success gives exactly the matching images the server's comment list; failure keeps the images |
| Gallery.ImageGallery.CommentClick | src/pages/ImageGallery.js:249-250 | a cancelled or empty prompt sends nothing and changes nothing; otherwise it is the comment handler |
| Gallery.ImageGallery.DeleteImage | src/pages/ImageGallery.js:145-152 | success removes exactly the images with that id; failure keeps them and shows the server's `error` or the fixed message |
| Gallery.ImageGallery.DismissError | src/pages/ImageGallery.js:188 | the error becomes empty; nothing else changes |
| Gallery.UploadTagsField | src/pages/ImageGallery.js:82-87 | the tags field decodes to exactly the parsed tags, in order, each non-empty and trimmed |
| Gallery.SingleTag | src/pages/ImageGallery.js:82-85 | one trimmed comma-free tag parses to itself |
| Gallery.UploadUnderTagFilter | src/pages/ImageGallery.js:97 | an upload under an active tag filter is shown at once, last in the working set, whatever its tags |
| Gallery.FavoritesThenTagThenClear | src/pages/ImageGallery.js:67-73 | favorites on, then a tag, then the tag cleared: the requests are favorites, by-tag, all-images; the favorites flag is still on, and a successful answer to the last fetch is what is shown |

## Left out

- The HTTP transport is not modelled: the base URL, the headers and the
  bearer token header (src/pages/AlbumsPage.js:8-14,
  src/pages/ImageGallery.js:18-24), and the multipart encoding of the
  upload. A request is a datatype value, and the server's answer is a
  method parameter.
- `localStorage` and `window.history` are not modelled. The start-up
  handler takes the URL token and the stored token as parameters and
  returns the token left in storage.
- The album record is abstracted to five fields: the id, the name, the
  description, the owner's email (the page reads only the owner's email,
  src/pages/AlbumsPage.js:244) and the shared users. The server's owner
  reference and any other field it returns are not kept, so the spread of
  the edited album into the update request (src/pages/AlbumsPage.js:126-136)
  carries only these five fields.
- `uuidv4` is not modelled; the new album's id is a parameter.
- Asynchronous interleaving is not modelled. Each handler is one atomic
  request/reply step, and a handler with several requests applies their
  replies in issue order. In the code, replies may arrive in any order and
  the last to arrive wins. This affects the three fetches on mount, the
  tag click's two fetches, and the share handler's refresh, which is not
  awaited.
- Rendering, `alert`, `prompt` and `console` are not modelled. The
  invalid-address alert is replaced by the list of rejected addresses the
  share handler returns. The comment prompt's answer is a parameter.
- Changing the album id while the gallery is mounted re-runs all three
  effects. This is not modelled: the gallery's album id is fixed at
  construction.
- Malformed successful responses are not modelled. A reply's payload has
  the documented shape: `albums`, `album`, `image` and `comments` are
  present. The image lists (`data`, `images`) are optional because the
  gallery falls back to `[]` for them.
- Strings are sequences of Unicode scalar values. Lone UTF-16 surrogates
  cannot occur, so `JSON.stringify`'s escaping of them is not modelled.
- The routing component (`App.js`) and the login redirect page
  (`LoginPage.js`) hold no logic and are not part of this model.
- Albums.ShareWithMalformed and Albums.ShareWithTwo take any two addresses
  with the stated properties, not the literal sample strings. The literal
  samples ("a@b.com", "not-an-email", "c@d.org") are not proved to have
  those properties.
