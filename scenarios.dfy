/**
 * Sequences of requests against one server, and what the route contracts
 * guarantee about them together.
 */
module Scenarios {
  import opened Wrappers
  import opened Listing
  import opened IsoShare

  /**
   * An upload of an `.iso` file followed by `GET /` lists the file with its
   * size, unless a file `index.html` shadows the listing.
   */
  method UploadThenHome(s: Server, part: Part, tmp: string, order: seq<string>) returns (page: Response)
    requires s.loggedIn && tmp !in s.temps && IsIso(part.originalname)
    requires ListsDirectory(order, s.store[part.originalname := part.size])
    modifies s
    ensures "index.html" !in old(s.store) ==>
      page.Render? && page.view.IndexView? && Entry(part.originalname, part.size) in page.view.files
  {
    ghost var before := s.store;
    var uploaded := s.Upload(Some(part), tmp);
    assert s.store == before[part.originalname := part.size];
    assert "index.html" !in before ==> "index.html" !in s.store by {
      assert !IsIso("index.html");
    }
    page := s.Home(order);
    UploadedIsListed(order, before, part.originalname, part.size);
  }

  /**
   * A delete followed by `GET /` no longer lists the deleted name, unless a
   * file `index.html` shadows the listing.
   */
  method DeleteThenHome(s: Server, name: string, order: seq<string>) returns (page: Response)
    requires s.loggedIn
    requires ListsDirectory(order, s.store - {name})
    modifies s
    ensures "index.html" !in old(s.store) - {name} ==>
      page.Render? && page.view.IndexView? && forall e | e in page.view.files :: e.name != name
  {
    ghost var before := s.store;
    var deleted := s.Delete(Some(name));
    page := s.Home(order);
    DeletedIsNotListed(order, before, name);
  }

  /** Deleting a name twice leaves the directory as deleting it once. */
  method DeleteTwice(s: Server, name: string) returns (first: Response, second: Response)
    requires s.loggedIn
    modifies s
    ensures s.store == old(s.store) - {name}
    ensures first == second == Redirect("/admin-upload")
  {
    first := s.Delete(Some(name));
    ghost var once := s.store;
    second := s.Delete(Some(name));
    assert s.store == once;
  }

  /** A client without a session can neither upload nor delete: both are redirected to the login page. */
  method AnonymousCannotChange(s: Server, part: Option<Part>, tmp: string, filename: Option<string>)
    returns (upload: Response, delete: Response)
    requires !s.loggedIn && tmp !in s.temps
    modifies s
    ensures s.store == old(s.store) && s.temps == old(s.temps)
    ensures upload == delete == Redirect("/login")
  {
    upload := s.Upload(part, tmp);
    delete := s.Delete(filename);
  }

  /**
   * On a fresh server, the right password opens the admin page and a wrong
   * one does not, unless a file `admin-upload` shadows the admin page.
   */
  method LoginThenAdmin(initial: map<string, nat>, order: seq<string>, password: string)
    returns (login: Response, admin: Response)
    requires ListsDirectory(order, initial)
    ensures "admin-upload" !in initial && password == Password ==>
      login == Redirect("/admin-upload") && admin == Render(AdminView(IsoListing(order, initial), None))
    ensures "admin-upload" !in initial && password != Password ==>
      login == Render(LoginView(Some(WrongPassword))) && admin == Redirect("/login")
  {
    var s := new Server(initial);
    login := s.Login(Some(password));
    admin := s.AdminUpload(order);
  }

  /**
   * After a logout the admin page sends the client back to the login page,
   * unless files `logout` or `admin-upload` shadow those routes.
   */
  method LogoutThenAdmin(s: Server, order: seq<string>) returns (admin: Response)
    requires ListsDirectory(order, s.store)
    modifies s
    ensures "logout" !in s.store && "admin-upload" !in s.store ==> admin == Redirect("/login")
  {
    var out := s.Logout();
    admin := s.AdminUpload(order);
  }
}
