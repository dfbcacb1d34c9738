/** The image gallery of one album (src/pages/ImageGallery.js): the working
    set of images, the favorites and tag views that decide which list is
    fetched, and the upload, favorite, comment and delete handlers. */
module Gallery {
  import opened Replies
  import opened Text
  import opened Json

  /** An image as the server returns it. */
  datatype Image = Image(
    imageId: string,
    imageUrl: string,
    name: string,
    tags: seq<string>,
    isFavorite: bool,
    comments: seq<string>)

  /** The file picked in the upload input, passed on as it is. */
  datatype FileRef = FileRef(name: string)

  /** The requests the gallery sends, all under /albums/{albumId}. */
  datatype ImageRequest =
    | AllImagesRequest(albumId: string)                           // GET images/all
    | FavoritesRequest(albumId: string)                           // GET images/favorites
    | TagRequest(albumId: string, tag: string)                    // GET images?tags=tag
    | UploadRequest(albumId: string, file: FileRef, tags: string) // POST images, multipart
    | FavoriteRequest(albumId: string, imageId: string, isFavorite: bool)  // PUT images/{id}/favorite
    | CommentRequest(albumId: string, imageId: string, comment: string)   // POST images/{id}/comments
    | DeleteImageRequest(albumId: string, imageId: string)        // DELETE images/{id}

  /** A list reply: the list field the handler reads, which may be missing. */
  type ListReply = Reply<Option<seq<Image>>>

  const FetchFailed := "Failed to fetch images"
  const FavoritesFailed := "Failed to fetch favorite images"
  const TagFetchFailed := "Failed to fetch images by tag"
  const UploadFailed := "Failed to upload image"
  const FavoriteFailed := "Failed to update favorite status"
  const CommentFailed := "Failed to add comment"
  const DeleteFailed := "Failed to delete image"

  /** `images.find(img => img.imageId === id)`: the first image with that id. */
  function FindImage(images: seq<Image>, id: string): (r: Option<Image>)
    ensures r.None? <==> forall img :: img in images ==> img.imageId != id
    ensures r.Some? ==> r.value.imageId == id && exists k :: (0 <= k < |images| && images[k] == r.value
      && forall j :: 0 <= j < k ==> images[j].imageId != id)
  {
    if images == [] then None
    else if images[0].imageId == id then Some(images[0])
    else
      var r := FindImage(images[1..], id);
      assert forall img :: img in images ==> img == images[0] || img in images[1..];
      if r.Some? then
        var k :| 0 <= k < |images[1..]| && images[1..][k] == r.value && r.value.imageId == id
          && forall j :: 0 <= j < k ==> images[1..][j].imageId != id;
        assert images[k + 1] == r.value;
        assert forall j :: 1 <= j < k + 1 ==> images[j] == images[1..][j - 1];
        r
      else r
  }

  /** The favorite flag flipped on every image with that id; nothing else
      changes. */
  function ToggleById(images: seq<Image>, id: string): (r: seq<Image>)
    ensures |r| == |images|
    ensures forall i :: 0 <= i < |r| ==>
      r[i] == if images[i].imageId == id then images[i].(isFavorite := !images[i].isFavorite) else images[i]
  {
    if images == [] then []
    else
      var img := images[0];
      [if img.imageId == id then img.(isFavorite := !img.isFavorite) else img] + ToggleById(images[1..], id)
  }

  /** Two successful toggles of the same id restore the list. */
  lemma ToggleTwice(images: seq<Image>, id: string)
    ensures ToggleById(ToggleById(images, id), id) == images
  {
  }

  /** The comment list of every image with that id replaced by the server's;
      nothing else changes. */
  function SetCommentsById(images: seq<Image>, id: string, comments: seq<string>): (r: seq<Image>)
    ensures |r| == |images|
    ensures forall i :: 0 <= i < |r| ==>
      r[i] == if images[i].imageId == id then images[i].(comments := comments) else images[i]
  {
    if images == [] then []
    else
      var img := images[0];
      [if img.imageId == id then img.(comments := comments) else img] + SetCommentsById(images[1..], id, comments)
  }

  /** `images.filter(img => img.imageId !== id)`: exactly the images with
      another id remain. */
  function RemoveImageById(images: seq<Image>, id: string): (r: seq<Image>)
    ensures |r| <= |images|
    ensures forall img :: img in r <==> img in images && img.imageId != id
  {
    if images == [] then []
    else if images[0].imageId == id then RemoveImageById(images[1..], id)
    else [images[0]] + RemoveImageById(images[1..], id)
  }

  /** The remaining images keep their order. */
  lemma {:induction false} RemoveImageConcat(a: seq<Image>, b: seq<Image>, id: string)
    ensures RemoveImageById(a + b, id) == RemoveImageById(a, id) + RemoveImageById(b, id)
  {
    if a == [] {
      assert a + b == b;
    } else {
      assert (a + b)[0] == a[0];
      assert (a + b)[1..] == a[1..] + b;
      RemoveImageConcat(a[1..], b, id);
    }
  }

  /** The user actions that change which list is shown. */
  datatype ViewEvent =
    | ToggleFavoritesView        // the favorites button
    | ChangeTagFilter(value: string)  // typing in the tag filter
    | ClickTag(tag: string)      // clicking a tag shown on an image

  /** `fetchImagesByTag` sends the trimmed tag. */
  function TagFetch(albumId: string, tag: string): (r: ImageRequest)
    ensures r.TagRequest? && r.albumId == albumId && IsTrimmed(r.tag)
    ensures r.tag == [] <==> AllWhitespace(tag)
  {
    TagRequest(albumId, Trim(tag))
  }

  /** The effect on the favorites flag (lines 49-55). */
  function FavoritesEffect(albumId: string, viewingFavorites: bool): (r: ImageRequest)
    ensures r.albumId == albumId
    ensures r.FavoritesRequest? <==> viewingFavorites
    ensures r.AllImagesRequest? <==> !viewingFavorites
  {
    if viewingFavorites then FavoritesRequest(albumId) else AllImagesRequest(albumId)
  }

  /** The effect on the tag filter (lines 67-73). */
  function TagEffect(albumId: string, tagFilter: string): (r: ImageRequest)
    ensures r.albumId == albumId
    ensures r.AllImagesRequest? <==> AllWhitespace(tagFilter)
    ensures r.TagRequest? <==> !AllWhitespace(tagFilter)
    ensures r.TagRequest? ==> r.tag == Trim(tagFilter)
  {
    if Trim(tagFilter) == [] then AllImagesRequest(albumId)
    else
      TrimOfTrimmed(Trim(tagFilter));
      TagFetch(albumId, Trim(tagFilter))
  }

  /** The fetches an event issues, in issue order, given the favorites flag
      and the tag filter before it. An effect runs only when the value it
      watches changes. */
  function RequestsFor(albumId: string, viewingFavorites: bool, tagFilter: string, e: ViewEvent): (r: seq<ImageRequest>)
    ensures e.ToggleFavoritesView? ==>
      r == [if viewingFavorites then AllImagesRequest(albumId) else FavoritesRequest(albumId)]
    ensures e.ChangeTagFilter? ==> (r == [] <==> e.value == tagFilter)
    ensures e.ChangeTagFilter? && e.value != tagFilter ==>
      r == [if AllWhitespace(e.value) then AllImagesRequest(albumId) else TagRequest(albumId, Trim(e.value))]
  {
    match e
    case ToggleFavoritesView =>
      [FavoritesEffect(albumId, !viewingFavorites)]
    case ChangeTagFilter(value) =>
      TrimOfTrimmed(Trim(value));
      if value == tagFilter then [] else [TagEffect(albumId, value)]
    case ClickTag(tag) =>
      var t := Trim(tag);
      [TagFetch(albumId, t)] + (if t == tagFilter then [] else [TagEffect(albumId, t)])
  }

  /** A tag click fetches by the trimmed tag at once; the effect adds at most
      one more fetch, and for a non-blank tag every fetch is by that tag, so
      both paths ask for the same list. */
  lemma TagClickRequests(albumId: string, viewingFavorites: bool, tagFilter: string, tag: string)
    ensures var r := RequestsFor(albumId, viewingFavorites, tagFilter, ClickTag(tag));
      && 1 <= |r| <= 2
      && r[0] == TagRequest(albumId, Trim(tag))
      && (|r| == 2 <==> Trim(tag) != tagFilter)
      && (!AllWhitespace(tag) ==> forall q :: q in r ==> q == TagRequest(albumId, Trim(tag)))
  {
    var t := Trim(tag);
    TrimOfTrimmed(t);
    TrimOfTrimmed(Trim(t));
  }

  /** What the gallery holds. */
  datatype GalleryView = GalleryView(
    images: seq<Image>,
    uploading: bool,
    error: string,
    viewingFavorites: bool,
    tagFilter: string,
    tagsInput: string,
    selectedFile: Option<FileRef>)

  /** A list reply folded into the view: success replaces the working set
      wholesale (a missing list gives the empty one) and keeps the error;
      failure keeps the images and overwrites the error. */
  function ApplyList(v: GalleryView, reply: ListReply, fallback: string): (r: GalleryView)
    ensures r.(images := v.images, error := v.error) == v
    ensures reply.Ok? ==> r.images == reply.payload.GetOr([]) && r.error == v.error
    ensures reply.Err? ==> r.images == v.images && r.error == ServerError(reply.failure, fallback)
  {
    match reply
    case Ok(list) => v.(images := list.GetOr([]))
    case Err(f) => v.(error := ServerError(f, fallback))
  }

  /** The same reply applied twice leaves what it left once. */
  lemma ApplyListIdempotent(v: GalleryView, reply: ListReply, fallback: string)
    ensures ApplyList(ApplyList(v, reply, fallback), reply, fallback) == ApplyList(v, reply, fallback)
  {
  }

  class ImageGallery {
    const albumId: string
    var images: seq<Image>
    var uploading: bool
    var error: string
    var viewingFavorites: bool
    var tagFilter: string
    var tagsInput: string
    var selectedFile: Option<FileRef>

    ghost function View(): GalleryView
      reads this
    {
      GalleryView(images, uploading, error, viewingFavorites, tagFilter, tagsInput, selectedFile)
    }

    constructor (albumId: string)
      ensures this.albumId == albumId
      ensures View() == GalleryView([], false, "", false, "", "", None)
    {
      this.albumId := albumId;
      images := [];
      uploading := false;
      error := "";
      viewingFavorites := false;
      tagFilter := "";
      tagsInput := "";
      selectedFile := None;
    }

    method ApplyListReply(reply: ListReply, fallback: string)
      modifies this
      ensures View() == ApplyList(old(View()), reply, fallback)
    {
      match reply {
        case Ok(list) => images := list.GetOr([]);
        case Err(f) => error := ServerError(f, fallback);
      }
    }

    /** `fetchImages` */
    method FetchImages(reply: ListReply) returns (sent: seq<ImageRequest>)
      modifies this
      ensures sent == [AllImagesRequest(albumId)]
      ensures View() == ApplyList(old(View()), reply, FetchFailed)
    {
      sent := [AllImagesRequest(albumId)];
      ApplyListReply(reply, FetchFailed);
    }

    /** `fetchFavoriteImages` */
    method FetchFavoriteImages(reply: ListReply) returns (sent: seq<ImageRequest>)
      modifies this
      ensures sent == [FavoritesRequest(albumId)]
      ensures View() == ApplyList(old(View()), reply, FavoritesFailed)
    {
      sent := [FavoritesRequest(albumId)];
      ApplyListReply(reply, FavoritesFailed);
    }

    /** `fetchImagesByTag`: the tag is sent trimmed. */
    method FetchImagesByTag(tag: string, reply: ListReply) returns (sent: seq<ImageRequest>)
      modifies this
      ensures sent == [TagFetch(albumId, tag)]
      ensures View() == ApplyList(old(View()), reply, TagFetchFailed)
    {
      sent := [TagFetch(albumId, tag)];
      ApplyListReply(reply, TagFetchFailed);
    }

    /** Mounting runs the album effect and both view effects: three fetches
        of all images, whose answers are applied in issue order. With one
        answer for all three the result is that answer applied once. */
    method Mount(r1: ListReply, r2: ListReply, r3: ListReply) returns (sent: seq<ImageRequest>)
      modifies this
      ensures sent == [AllImagesRequest(albumId), AllImagesRequest(albumId), AllImagesRequest(albumId)]
      ensures View() == ApplyList(ApplyList(ApplyList(old(View()), r1, FetchFailed), r2, FetchFailed), r3, FetchFailed)
      ensures r1 == r2 == r3 ==> View() == ApplyList(old(View()), r1, FetchFailed)
    {
      var a := FetchImages(r1);
      var b := FetchImages(r2);
      var c := FetchImages(r3);
      sent := a + b + c;
      if r1 == r2 == r3 {
        ApplyListIdempotent(old(View()), r1, FetchFailed);
      }
    }

    /** The favorites button flips the flag; the effect then fetches the
        favorites or all images by the new flag, whatever the tag filter. */
    method ToggleFavoritesView(reply: ListReply) returns (sent: seq<ImageRequest>)
      modifies this
      ensures sent == RequestsFor(albumId, old(viewingFavorites), old(tagFilter), ViewEvent.ToggleFavoritesView)
      ensures View() == ApplyList(old(View()).(viewingFavorites := !old(viewingFavorites)), reply,
        if old(viewingFavorites) then FetchFailed else FavoritesFailed)
    {
      viewingFavorites := !viewingFavorites;
      if viewingFavorites {
        sent := FetchFavoriteImages(reply);
      } else {
        sent := FetchImages(reply);
      }
    }

    /** Typing in the tag filter: a blank filter fetches all images even
        in the favorites view, any other the trimmed tag. */
    method ChangeTagFilter(value: string, reply: ListReply) returns (sent: seq<ImageRequest>)
      modifies this
      ensures sent == RequestsFor(albumId, old(viewingFavorites), old(tagFilter), ViewEvent.ChangeTagFilter(value))
      ensures value == old(tagFilter) ==> View() == old(View())
      ensures value != old(tagFilter) ==> View() == ApplyList(old(View()).(tagFilter := value), reply,
        if AllWhitespace(value) then FetchFailed else TagFetchFailed)
    {
      if value == tagFilter {
        return [];
      }
      tagFilter := value;
      if Trim(tagFilter) == [] {
        sent := FetchImages(reply);
      } else {
        sent := FetchImagesByTag(Trim(tagFilter), reply);
      }
    }

    /** Clicking a tag sets the filter to the trimmed tag and fetches by it
        at once; when the filter changed, the effect fetches again. Replies
        are applied in issue order. With the same answer to both, the result
        is that answer applied once. */
    method ClickTag(tag: string, directReply: ListReply, effectReply: ListReply) returns (sent: seq<ImageRequest>)
      modifies this
      ensures sent == RequestsFor(albumId, old(viewingFavorites), old(tagFilter), ViewEvent.ClickTag(tag))
      ensures var w := ApplyList(old(View()).(tagFilter := Trim(tag)), directReply, TagFetchFailed);
        View() == if Trim(tag) == old(tagFilter) then w
                  else ApplyList(w, effectReply, if AllWhitespace(tag) then FetchFailed else TagFetchFailed)
      ensures !AllWhitespace(tag) && directReply == effectReply ==>
        View() == ApplyList(old(View()).(tagFilter := Trim(tag)), directReply, TagFetchFailed)
    {
      var t := Trim(tag);
      TrimOfTrimmed(t);
      var changed := t != tagFilter;
      tagFilter := t;
      sent := FetchImagesByTag(t, directReply);
      if changed {
        var more: seq<ImageRequest>;
        if Trim(tagFilter) == [] {
          more := FetchImages(effectReply);
        } else {
          more := FetchImagesByTag(Trim(tagFilter), effectReply);
        }
        sent := sent + more;
      }
      ApplyListIdempotent(old(View()).(tagFilter := t), directReply, TagFetchFailed);
    }

    /** The file input; cancelling the picker gives no file. */
    method SelectFile(file: Option<FileRef>)
      modifies this
      ensures View() == old(View()).(selectedFile := file)
    {
      selectedFile := file;
    }

    method SetTagsInput(text: string)
      modifies this
      ensures View() == old(View()).(tagsInput := text)
    {
      tagsInput := text;
    }

    /** `handleImageUpload`: without a file nothing happens. Otherwise the
        tags field is the JSON array of the parsed tags; on success the
        server's image is appended to the working set whatever the view,
        and the inputs are cleared; on failure the images stay. */
    method HandleImageUpload(reply: Reply<Image>) returns (sent: seq<ImageRequest>)
      modifies this
      ensures old(selectedFile).None? ==> sent == [] && View() == old(View())
      ensures old(selectedFile).Some? ==>
        sent == [UploadRequest(albumId, old(selectedFile).value, Stringify(ParseList(old(tagsInput))))]
      ensures old(selectedFile).Some? && reply.Ok? ==>
        View() == old(View()).(images := old(images) + [reply.payload], tagsInput := "", selectedFile := None, uploading := false)
      ensures old(selectedFile).Some? && reply.Err? ==>
        View() == old(View()).(error := ServerError(reply.failure, UploadFailed), uploading := false)
    {
      if selectedFile.None? {
        return [];
      }
      var tags := ParseList(tagsInput);
      uploading := true;
      sent := [UploadRequest(albumId, selectedFile.value, Stringify(tags))];
      match reply {
        case Ok(image) =>
          images := images + [image];
          tagsInput := "";
          selectedFile := None;
        case Err(f) =>
          error := ServerError(f, UploadFailed);
      }
      uploading := false;
    }

    /** `toggleFavorite`: sends the first matching image's flag inverted and,
        on success, flips the flag on every image with that id. An id not in
        the list throws before any request and shows the fixed message. */
    method ToggleFavorite(imageId: string, reply: Reply<()>) returns (sent: seq<ImageRequest>)
      modifies this
      ensures FindImage(old(images), imageId).None? ==>
        sent == [] && View() == old(View()).(error := FavoriteFailed)
      ensures FindImage(old(images), imageId).Some? ==>
        sent == [FavoriteRequest(albumId, imageId, !FindImage(old(images), imageId).value.isFavorite)]
      ensures FindImage(old(images), imageId).Some? && reply.Ok? ==>
        View() == old(View()).(images := ToggleById(old(images), imageId))
      ensures FindImage(old(images), imageId).Some? && reply.Err? ==>
        View() == old(View()).(error := ServerError(reply.failure, FavoriteFailed))
    {
      var found := FindImage(images, imageId);
      if found.None? {
        error := FavoriteFailed;
        return [];
      }
      sent := [FavoriteRequest(albumId, imageId, !found.value.isFavorite)];
      match reply {
        case Ok(_) => images := ToggleById(images, imageId);
        case Err(f) => error := ServerError(f, FavoriteFailed);
      }
    }

    /** `addComment`: on success the matching images' comments become the
        server's list. */
    method AddComment(imageId: string, comment: string, reply: Reply<seq<string>>) returns (sent: seq<ImageRequest>)
      modifies this
      ensures sent == [CommentRequest(albumId, imageId, comment)]
      ensures reply.Ok? ==> View() == old(View()).(images := SetCommentsById(old(images), imageId, reply.payload))
      ensures reply.Err? ==> View() == old(View()).(error := ServerError(reply.failure, CommentFailed))
    {
      sent := [CommentRequest(albumId, imageId, comment)];
      match reply {
        case Ok(comments) => images := SetCommentsById(images, imageId, comments);
        case Err(f) => error := ServerError(f, CommentFailed);
      }
    }

    /** The comment button: a cancelled or empty prompt sends nothing. */
    method CommentClick(imageId: string, answer: Option<string>, reply: Reply<seq<string>>) returns (sent: seq<ImageRequest>)
      modifies this
      ensures !Truthy(answer) ==> sent == [] && View() == old(View())
      ensures Truthy(answer) ==> sent == [CommentRequest(albumId, imageId, answer.value)]
      ensures Truthy(answer) && reply.Ok? ==> View() == old(View()).(images := SetCommentsById(old(images), imageId, reply.payload))
      ensures Truthy(answer) && reply.Err? ==> View() == old(View()).(error := ServerError(reply.failure, CommentFailed))
    {
      if !Truthy(answer) {
        return [];
      }
      sent := AddComment(imageId, answer.value, reply);
    }

    /** `deleteImage`: on success exactly the images with that id go. */
    method DeleteImage(imageId: string, reply: Reply<()>) returns (sent: seq<ImageRequest>)
      modifies this
      ensures sent == [DeleteImageRequest(albumId, imageId)]
      ensures reply.Ok? ==> View() == old(View()).(images := RemoveImageById(old(images), imageId))
      ensures reply.Err? ==> View() == old(View()).(error := ServerError(reply.failure, DeleteFailed))
    {
      sent := [DeleteImageRequest(albumId, imageId)];
      match reply {
        case Ok(_) => images := RemoveImageById(images, imageId);
        case Err(f) => error := ServerError(f, DeleteFailed);
      }
    }

    /** The alert's close button. */
    method DismissError()
      modifies this
      ensures View() == old(View()).(error := "")
    {
      error := "";
    }
  }

  /** The tags field of an upload decodes to exactly the parsed tags, in
      order, each non-empty and trimmed. */
  lemma UploadTagsField(tagsInput: string)
    ensures Parse(Stringify(ParseList(tagsInput))) == Some(ParseList(tagsInput))
    ensures forall t :: t in ParseList(tagsInput) ==> t != [] && IsTrimmed(t)
  {
    ParseStringify(ParseList(tagsInput));
  }

  /** A single tag with no comma and no surrounding whitespace parses to
      itself. */
  lemma SingleTag(t: string)
    requires t != [] && IsTrimmed(t) && ',' !in t
    ensures ParseList(t) == [t]
  {
    ParseListPiece(t);
    TrimOfTrimmed(t);
  }

  /** An upload while a tag filter is active, of an image given one other
      tag (say the filter "vacation" and the tag "family"): the uploaded
      image is shown at once, last in the working set, whatever tags it
      carries. */
  method UploadUnderTagFilter(albumId: string, filter: string, filterReply: ListReply,
                              file: FileRef, tag: string, uploaded: Image)
    returns (shown: seq<Image>, sent: seq<ImageRequest>)
    requires !AllWhitespace(filter)
    requires tag != [] && IsTrimmed(tag) && ',' !in tag
    ensures sent == [TagRequest(albumId, Trim(filter)), UploadRequest(albumId, file, Stringify([tag]))]
    ensures |shown| > 0 && shown[|shown| - 1] == uploaded
  {
    var g := new ImageGallery(albumId);
    var s1 := g.ChangeTagFilter(filter, filterReply);
    g.SelectFile(Some(file));
    g.SetTagsInput(tag);
    assert g.selectedFile == Some(file) && g.tagsInput == tag;
    SingleTag(tag);
    var s2 := g.HandleImageUpload(Ok(uploaded));
    assert s1 == [TagRequest(albumId, Trim(filter))];
    assert s2 == [UploadRequest(albumId, file, Stringify([tag]))];
    sent := s1 + s2;
    shown := g.images;
  }

  /** Favorites view on, then a tag filter, then the filter cleared: the
      last fetch is the all-images one, not the favorites one, although the
      favorites flag is still on; a successful answer to it is what is
      shown. */
  method FavoritesThenTagThenClear(albumId: string, tag: string, first: ListReply, second: ListReply, third: ListReply)
    returns (shown: seq<Image>, favoritesOn: bool, sent: seq<ImageRequest>)
    requires !AllWhitespace(tag)
    ensures sent == [FavoritesRequest(albumId), TagRequest(albumId, Trim(tag)), AllImagesRequest(albumId)]
    ensures favoritesOn
    ensures third.Ok? ==> shown == third.payload.GetOr([])
  {
    var g := new ImageGallery(albumId);
    var s1 := g.ToggleFavoritesView(first);
    var s2 := g.ChangeTagFilter(tag, second);
    var s3 := g.ChangeTagFilter("", third);
    sent := s1 + s2 + s3;
    shown := g.images;
    favoritesOn := g.viewingFavorites;
  }
}
