/** The albums page (src/pages/AlbumsPage.js): the signed-in user's album
    list, the create, edit and share forms, and the handlers that send one
    request each and fold the server's reply into the page state. */
module Albums {
  import opened Replies
  import opened Text
  import opened Email

  /** An album as the server returns it. */
  datatype Album = Album(
    id: string,
    name: string,
    description: string,
    ownerEmail: Option<string>,
    sharedUsers: seq<string>)

  /** The create form. `sharedUsers` is the text field the form starts with;
      it is None once a successful create has reset the form without it. */
  datatype AlbumForm = AlbumForm(name: string, description: string, sharedUsers: Option<string>)

  /** The edit form: the album being edited, its shared users shown as one
      comma-separated text. */
  datatype EditForm = EditForm(
    id: string,
    name: string,
    description: string,
    ownerEmail: Option<string>,
    sharedUsersText: string)

  /** The requests the page sends. */
  datatype AlbumRequest =
    | ListRequest                                               // GET /albums
    | CreateRequest(albumId: string, name: string, description: string)  // POST /albums
    | UpdateRequest(id: string, body: Album)                    // PUT /albums/{id}
    | DeleteRequest(id: string)                                 // DELETE /albums/{id}
    | ShareRequest(id: string, sharedUsers: seq<string>)        // POST /albums/{id}/share

  const NotAuthorized := "You are not authorized to do so"
  const ShareFailed := "Something went wrong while sharing the album"
  const MustLogIn := "You must log in"

  /** The form as a successful create leaves it: no shared-users field. */
  const ResetForm := AlbumForm("", "", None)

  /** `albums.map(album => album._id === id ? updated : album)`: every entry
      with that id becomes the server's album, the others stay in place. */
  function ReplaceById(albums: seq<Album>, id: string, updated: Album): (r: seq<Album>)
    ensures |r| == |albums|
    ensures forall i :: 0 <= i < |r| ==> r[i] == if albums[i].id == id then updated else albums[i]
  {
    if albums == [] then []
    else [if albums[0].id == id then updated else albums[0]] + ReplaceById(albums[1..], id, updated)
  }

  /** Replacing twice with the same reply changes nothing more. */
  lemma ReplaceByIdIdempotent(albums: seq<Album>, id: string, updated: Album)
    ensures ReplaceById(ReplaceById(albums, id, updated), id, updated) == ReplaceById(albums, id, updated)
  {
  }

  /** A list without the id is left as it is. */
  lemma ReplaceAbsentId(albums: seq<Album>, id: string, updated: Album)
    requires forall a :: a in albums ==> a.id != id
    ensures ReplaceById(albums, id, updated) == albums
  {
    assert forall i :: 0 <= i < |albums| ==> albums[i] in albums;
  }

  /** `albums.filter(album => album._id !== id)`: exactly the entries with
      another id remain. */
  function RemoveById(albums: seq<Album>, id: string): (r: seq<Album>)
    ensures |r| <= |albums|
    ensures forall a :: a in r <==> a in albums && a.id != id
  {
    if albums == [] then []
    else if albums[0].id == id then RemoveById(albums[1..], id)
    else [albums[0]] + RemoveById(albums[1..], id)
  }

  /** The remaining entries keep their order: removing from a concatenation
      removes from each part. */
  lemma {:induction false} RemoveByIdConcat(a: seq<Album>, b: seq<Album>, id: string)
    ensures RemoveById(a + b, id) == RemoveById(a, id) + RemoveById(b, id)
  {
    if a == [] {
      assert a + b == b;
    } else {
      assert (a + b)[0] == a[0];
      assert (a + b)[1..] == a[1..] + b;
      RemoveByIdConcat(a[1..], b, id);
    }
  }

  /** Removing an id that is not in the list leaves it unchanged. */
  lemma {:induction false} RemoveAbsentId(albums: seq<Album>, id: string)
    requires forall a :: a in albums ==> a.id != id
    ensures RemoveById(albums, id) == albums
  {
    if albums != [] {
      assert albums[0] in albums;
      assert forall a :: a in albums[1..] ==> a in albums;
      RemoveAbsentId(albums[1..], id);
      assert albums == [albums[0]] + albums[1..];
    }
  }

  /** What the page holds. */
  datatype PageView = PageView(
    albums: seq<Album>,
    error: Option<string>,
    isLoading: bool,
    newAlbum: AlbumForm,
    editingAlbum: Option<EditForm>,
    sharingAlbumId: Option<string>,
    shareEmails: string)

  class AlbumsPage {
    var albums: seq<Album>
    var error: Option<string>
    var isLoading: bool
    var newAlbum: AlbumForm
    var editingAlbum: Option<EditForm>
    var sharingAlbumId: Option<string>
    var shareEmails: string

    ghost function View(): PageView
      reads this
    {
      PageView(albums, error, isLoading, newAlbum, editingAlbum, sharingAlbumId, shareEmails)
    }

    constructor ()
      ensures View() == PageView([], None, false, AlbumForm("", "", Some("")), None, None, "")
    {
      albums := [];
      error := None;
      isLoading := false;
      newAlbum := AlbumForm("", "", Some(""));
      editingAlbum := None;
      sharingAlbumId := None;
      shareEmails := "";
    }

    /** `fetchAlbums`: the server's list replaces the page's wholesale and
        clears the error; a failure keeps the list and shows the server's
        message, or the transport's. */
    method FetchAlbums(reply: Reply<seq<Album>>) returns (sent: seq<AlbumRequest>)
      modifies this
      ensures sent == [ListRequest]
      ensures reply.Ok? ==> View() == old(View()).(albums := reply.payload, error := None, isLoading := false)
      ensures reply.Err? ==> View() == old(View()).(error := Some(ServerMessage(reply.failure)), isLoading := false)
    {
      isLoading := true;
      sent := [ListRequest];
      match reply {
        case Ok(list) =>
          albums := list;
          error := None;
        case Err(f) =>
          error := Some(ServerMessage(f));
      }
      isLoading := false;
    }

    /** `createAlbum`: sends the request id, the name and the description
        (`description || ''` is the description itself for a string). On
        success the server's album is appended and the form is reset without
        its shared-users field; on failure the list and the form stay. */
    method CreateAlbum(name: string, description: string, requestId: string, reply: Reply<Album>)
      returns (sent: seq<AlbumRequest>)
      modifies this
      ensures sent == [CreateRequest(requestId, name, description)]
      ensures reply.Ok? ==> View() == old(View()).(albums := old(albums) + [reply.payload],
        newAlbum := ResetForm, error := None, isLoading := false)
      ensures reply.Err? ==> View() == old(View()).(error := Some(ServerMessage(reply.failure)), isLoading := false)
    {
      isLoading := true;
      sent := [CreateRequest(requestId, name, description)];
      match reply {
        case Ok(album) =>
          albums := albums + [album];
          newAlbum := ResetForm;
          error := None;
        case Err(f) =>
          error := Some(ServerMessage(f));
      }
      isLoading := false;
    }

    /** `handleCreateAlbum`: splits the form's shared-users text before
        calling `createAlbum`. When the field is missing (after a successful
        create) the split throws and nothing is sent or changed. */
    method HandleCreateAlbum(requestId: string, reply: Reply<Album>) returns (sent: seq<AlbumRequest>, threw: bool)
      modifies this
      ensures threw <==> old(newAlbum).sharedUsers.None?
      ensures threw ==> sent == [] && View() == old(View())
      ensures !threw ==> sent == [CreateRequest(requestId, old(newAlbum).name, old(newAlbum).description)]
      ensures !threw && reply.Ok? ==> View() == old(View()).(albums := old(albums) + [reply.payload],
        newAlbum := ResetForm, error := None, isLoading := false)
      ensures !threw && reply.Err? ==> View() == old(View()).(error := Some(ServerMessage(reply.failure)), isLoading := false)
    {
      if newAlbum.sharedUsers.None? {
        return [], true;
      }
      threw := false;
      sent := CreateAlbum(newAlbum.name, newAlbum.description, requestId, reply);
    }

    /** `updateAlbum`: on success every entry with that id becomes the
        server's album and editing ends; any failure shows the fixed
        not-authorized message. */
    method UpdateAlbum(id: string, body: Album, reply: Reply<Album>) returns (sent: seq<AlbumRequest>)
      modifies this
      ensures sent == [UpdateRequest(id, body)]
      ensures reply.Ok? ==> View() == old(View()).(albums := ReplaceById(old(albums), id, reply.payload),
        editingAlbum := None, error := None, isLoading := false)
      ensures reply.Err? ==> View() == old(View()).(error := Some(NotAuthorized), isLoading := false)
    {
      isLoading := true;
      sent := [UpdateRequest(id, body)];
      match reply {
        case Ok(album) =>
          albums := ReplaceById(albums, id, album);
          editingAlbum := None;
          error := None;
        case Err(_) =>
          error := Some(NotAuthorized);
      }
      isLoading := false;
    }

    /** `handleUpdateAlbum`: the edited album is sent with its shared-users
        text split at commas and trimmed (empty pieces kept). */
    method HandleUpdateAlbum(reply: Reply<Album>) returns (sent: seq<AlbumRequest>, threw: bool)
      modifies this
      ensures threw <==> old(editingAlbum).None?
      ensures threw ==> sent == [] && View() == old(View())
      ensures !threw ==>
        var e := old(editingAlbum).value;
        var body := Album(e.id, e.name, e.description, e.ownerEmail, SplitTrim(e.sharedUsersText));
        && sent == [UpdateRequest(e.id, body)]
        && (reply.Ok? ==> View() == old(View()).(albums := ReplaceById(old(albums), e.id, reply.payload),
              editingAlbum := None, error := None, isLoading := false))
        && (reply.Err? ==> View() == old(View()).(error := Some(NotAuthorized), isLoading := false))
    {
      if editingAlbum.None? {
        return [], true;
      }
      threw := false;
      var e := editingAlbum.value;
      var body := Album(e.id, e.name, e.description, e.ownerEmail, SplitTrim(e.sharedUsersText));
      sent := UpdateAlbum(e.id, body, reply);
    }

    /** `handleEditClick`: opens the edit form on the album, its shared users
        joined with ", ". */
    method HandleEditClick(album: Album)
      modifies this
      ensures View() == old(View()).(editingAlbum :=
        Some(EditForm(album.id, album.name, album.description, album.ownerEmail, Join(album.sharedUsers, ", "))))
    {
      editingAlbum := Some(EditForm(album.id, album.name, album.description, album.ownerEmail, Join(album.sharedUsers, ", ")));
    }

    /** `deleteAlbum`: on success exactly the entries with that id go; on
        failure the list stays and the server's `error` field, or the fixed
        not-authorized message, is shown. */
    method DeleteAlbum(id: string, reply: Reply<()>) returns (sent: seq<AlbumRequest>)
      modifies this
      ensures sent == [DeleteRequest(id)]
      ensures reply.Ok? ==> View() == old(View()).(albums := RemoveById(old(albums), id), error := None, isLoading := false)
      ensures reply.Err? ==> View() == old(View()).(error := Some(ServerError(reply.failure, NotAuthorized)), isLoading := false)
    {
      isLoading := true;
      sent := [DeleteRequest(id)];
      match reply {
        case Ok(_) =>
          albums := RemoveById(albums, id);
          error := None;
        case Err(f) =>
          error := Some(ServerError(f, NotAuthorized));
      }
      isLoading := false;
    }

    /** `shareAlbum`: parses the addresses; if any is malformed, reports
        exactly those and sends nothing. Otherwise one request carries the
        whole list; on success the share form closes and the list is
        fetched again, on failure the server's `error` field or a fixed
        message is shown. */
    method ShareAlbum(albumId: string, emails: string, shareReply: Reply<()>, refreshReply: Reply<seq<Album>>)
      returns (sent: seq<AlbumRequest>, rejected: seq<string>)
      modifies this
      ensures rejected == InvalidEmails(ParseList(emails))
      ensures rejected != [] ==> sent == [] && View() == old(View()).(isLoading := false)
      ensures rejected == [] && shareReply.Err? ==>
        sent == [ShareRequest(albumId, ParseList(emails))]
        && View() == old(View()).(error := Some(ServerError(shareReply.failure, ShareFailed)), isLoading := false)
      ensures rejected == [] && shareReply.Ok? ==>
        sent == [ShareRequest(albumId, ParseList(emails)), ListRequest]
        && var closed := old(View()).(shareEmails := "", sharingAlbumId := None, isLoading := false);
        && (refreshReply.Ok? ==> View() == closed.(albums := refreshReply.payload, error := None))
        && (refreshReply.Err? ==> View() == closed.(error := Some(ServerMessage(refreshReply.failure))))
    {
      isLoading := true;
      var emailList := ParseList(emails);
      rejected := InvalidEmails(emailList);
      if rejected != [] {
        isLoading := false;
        return [], rejected;
      }
      sent := [ShareRequest(albumId, emailList)];
      match shareReply {
        case Ok(_) =>
          shareEmails := "";
          sharingAlbumId := None;
          var refresh := FetchAlbums(refreshReply);
          sent := sent + refresh;
        case Err(f) =>
          error := Some(ServerError(f, ShareFailed));
      }
      isLoading := false;
    }

    /** The start-up effect: a non-empty token in the URL is persisted and
        wins over the stored one. With a non-empty token afterwards the
        albums are fetched; otherwise nothing is sent and the page asks the
        user to log in. Gives the token left in storage. */
    method StartUp(urlToken: Option<string>, storedToken: Option<string>, reply: Reply<seq<Album>>)
      returns (persisted: Option<string>, sent: seq<AlbumRequest>)
      modifies this
      ensures persisted == if Truthy(urlToken) then urlToken else storedToken
      ensures Truthy(persisted) ==> sent == [ListRequest]
      ensures Truthy(persisted) && reply.Ok? ==> View() == old(View()).(albums := reply.payload, error := None, isLoading := false)
      ensures Truthy(persisted) && reply.Err? ==> View() == old(View()).(error := Some(ServerMessage(reply.failure)), isLoading := false)
      ensures !Truthy(persisted) ==> sent == [] && View() == old(View()).(error := Some(MustLogIn))
    {
      persisted := storedToken;
      if Truthy(urlToken) {
        persisted := urlToken;
      }
      if Truthy(persisted) {
        sent := FetchAlbums(reply);
      } else {
        sent := [];
        error := Some(MustLogIn);
      }
    }

    /** The create form's name input keeps the other fields, a missing
        shared-users field included. */
    method SetNewAlbumName(name: string)
      modifies this
      ensures View() == old(View()).(newAlbum := old(newAlbum).(name := name))
    {
      newAlbum := newAlbum.(name := name);
    }

    method SetNewAlbumDescription(description: string)
      modifies this
      ensures View() == old(View()).(newAlbum := old(newAlbum).(description := description))
    {
      newAlbum := newAlbum.(description := description);
    }

    /** The edit form's inputs; they are shown only while an album is being
        edited. */
    method SetEditingName(name: string)
      requires editingAlbum.Some?
      modifies this
      ensures View() == old(View()).(editingAlbum := Some(old(editingAlbum).value.(name := name)))
    {
      editingAlbum := Some(editingAlbum.value.(name := name));
    }

    method SetEditingDescription(description: string)
      requires editingAlbum.Some?
      modifies this
      ensures View() == old(View()).(editingAlbum := Some(old(editingAlbum).value.(description := description)))
    {
      editingAlbum := Some(editingAlbum.value.(description := description));
    }

    method CancelEdit()
      modifies this
      ensures View() == old(View()).(editingAlbum := None)
    {
      editingAlbum := None;
    }

    /** `handleShareClick`: opens the share form on that album. */
    method HandleShareClick(albumId: string)
      modifies this
      ensures View() == old(View()).(sharingAlbumId := Some(albumId))
    {
      sharingAlbumId := Some(albumId);
    }

    method SetShareEmails(emails: string)
      modifies this
      ensures View() == old(View()).(shareEmails := emails)
    {
      shareEmails := emails;
    }

    method CancelShare()
      modifies this
      ensures View() == old(View()).(sharingAlbumId := None)
    {
      sharingAlbumId := None;
    }

    /** The alert's close button sets the error to the empty string. */
    method DismissError()
      modifies this
      ensures View() == old(View()).(error := Some(""))
    {
      error := Some("");
    }
  }

  /** A successful create followed by a second submit: the first sends the
      form's name and description, the second throws before sending
      anything, whatever name was typed in between. */
  method CreateTwice(firstId: string, created: Album, name: string, description: string,
                     secondName: string, secondId: string, secondReply: Reply<Album>)
    returns (first: seq<AlbumRequest>, second: seq<AlbumRequest>, threw: bool)
    ensures first == [CreateRequest(firstId, name, description)]
    ensures second == [] && threw
  {
    var page := new AlbumsPage();
    page.SetNewAlbumName(name);
    page.SetNewAlbumDescription(description);
    var firstThrew;
    first, firstThrew := page.HandleCreateAlbum(firstId, Ok(created));
    page.SetNewAlbumName(secondName);
    second, threw := page.HandleCreateAlbum(secondId, secondReply);
  }

  /** Two addresses typed as "first, second": both come back, in order. */
  lemma TwoAddresses(first: string, second: string)
    requires first != [] && IsTrimmed(first) && ',' !in first
    requires second != [] && IsTrimmed(second) && ',' !in second
    ensures ParseList(first + ", " + second) == [first, second]
  {
    CommaSpace(first, second);
    ParseListConcat(first, [' '] + second);
    ParseListPiece(first);
    TrimOfTrimmed(first);
    SpacedAddress(second);
  }

  /** The address after ", " parses to itself. */
  lemma SpacedAddress(t: string)
    requires t != [] && IsTrimmed(t) && ',' !in t
    ensures ParseList([' '] + t) == [t]
  {
    assert ',' !in [' '] + t;
    ParseListPiece([' '] + t);
    TrimLeadingWhitespace(' ', t);
    TrimOfTrimmed(t);
  }

  /** Sharing with one well-formed and one malformed address ("a@b.com,
      not-an-email", say) sends nothing and reports the malformed one
      alone. */
  method ShareWithMalformed(albumId: string, good: string, bad: string,
                            shareReply: Reply<()>, refreshReply: Reply<seq<Album>>)
    returns (sent: seq<AlbumRequest>, rejected: seq<string>)
    requires good != [] && IsTrimmed(good) && ',' !in good && IsValidEmail(good)
    requires bad != [] && IsTrimmed(bad) && ',' !in bad && !IsValidEmail(bad)
    ensures sent == [] && rejected == [bad]
  {
    var page := new AlbumsPage();
    TwoAddresses(good, bad);
    assert InvalidEmails([good, bad]) == [bad] by {
      assert [good, bad][1..] == [bad];
      assert [bad][1..] == [];
    }
    sent, rejected := page.ShareAlbum(albumId, good + ", " + bad, shareReply, refreshReply);
  }

  /** Sharing with two well-formed addresses ("a@b.com, c@d.org", say)
      sends one share request carrying both, then the refresh. */
  method ShareWithTwo(albumId: string, first: string, second: string,
                      shareReply: Reply<()>, refreshReply: Reply<seq<Album>>)
    returns (sent: seq<AlbumRequest>, rejected: seq<string>)
    requires first != [] && IsTrimmed(first) && ',' !in first && IsValidEmail(first)
    requires second != [] && IsTrimmed(second) && ',' !in second && IsValidEmail(second)
    ensures rejected == []
    ensures sent == [ShareRequest(albumId, [first, second])] + (if shareReply.Ok? then [ListRequest] else [])
  {
    var page := new AlbumsPage();
    TwoAddresses(first, second);
    assert InvalidEmails([first, second]) == [] by {
      assert [first, second][1..] == [second];
      assert [second][1..] == [];
    }
    sent, rejected := page.ShareAlbum(albumId, first + ", " + second, shareReply, refreshReply);
  }
}
