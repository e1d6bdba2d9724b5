/**
 * The route handlers of the ISO share: an admin session gate, the public and
 * admin listings, download, login and logout, upload and delete.
 *
 * One `Server` object stands for the uploads directory and for the session
 * of the client making the requests. Each method is one request to one
 * route, including the middleware in front of it: `express.static('uploads')`
 * in front of every GET route, and `checkAuth` in front of the protected
 * ones.
 *
 * A request body field is `None` when it is absent and also when it is not
 * a string (a number or an array of a JSON or extended urlencoded body):
 * both routes that read one behave alike in the two cases.
 */
module IsoShare {
  import opened Wrappers
  import opened Listing

  /** The admin password, compared by strict equality. */
  const Password: string := "PASSWORD"

  /** The message the login page shows after a wrong password. */
  const WrongPassword: string := "Falsches Passwort!"

  /** The text answered to a file that is not an `.iso`. */
  const OnlyIso: string := "Nur .iso-Dateien erlaubt!"

  /** The text of the 404 answer of a download. */
  const NotFoundText: string := "Datei nicht gefunden"

  /** The template a page is rendered from, with the data passed to it. */
  datatype View =
    | IndexView(files: seq<Entry>, searchQuery: Option<string>)
    | AdminView(files: seq<Entry>, searchQuery: Option<string>)
    | LoginView(error: Option<string>)

  /** What a request answers. */
  datatype Response =
    | Render(view: View)                   // res.render, status 200
    | Redirect(location: string)           // res.redirect, status 302
    | Send(status: nat, body: string)      // res.send / res.status(..).send
    | SendFile(name: string, size: nat)    // res.download
    | ServeStatic(name: string, size: nat) // express.static sends the file
    | Fault                                // an exception: Express answers 500

  /** One file part of a multipart upload, as the client sent it. */
  datatype Part = Part(originalname: string, size: nat)

  /** What multer hands to the upload handler as `req.file`. */
  datatype StoredFile = StoredFile(originalname: string, path: string)

  /** A name starting with a dot, which `express.static` does not serve. */
  predicate IsDotFile(name: string) {
    |name| > 0 && name[0] == '.'
  }

  /** `names` is what `readdirSync` returns: every file of `dir`, each once. */
  ghost predicate ListsDirectory(names: seq<string>, dir: map<string, nat>)
    ensures ListsDirectory(names, dir) ==> |names| == |dir|
  {
    if && (forall n | n in names :: n in dir)
       && (forall n | n in dir :: n in names)
       && (forall i, j | 0 <= i < j < |names| :: names[i] != names[j])
    then
      DistinctNamesCount(names);
      assert dir.Keys == set n | n in names;
      true
    else
      false
  }

  /** A sequence without repeats has as many elements as its set of elements. */
  lemma {:induction false} DistinctNamesCount(names: seq<string>)
    requires forall i, j | 0 <= i < j < |names| :: names[i] != names[j]
    ensures |set n | n in names| == |names|
  {
    if |names| > 0 {
      DistinctNamesCount(names[1..]);
      assert (set n | n in names) == (set n | n in names[1..]) + {names[0]};
      assert names[0] !in names[1..];
    }
  }

  class Server {
    /** The uploads directory: file name to size. */
    var store: map<string, nat>
    /** Multer's temporary files, keyed by their path. */
    var temps: map<string, nat>
    /** `req.session.loggedIn` of the current session. */
    var loggedIn: bool

    /** A server over an existing uploads directory, with a fresh session. */
    constructor (initial: map<string, nat>)
      ensures store == initial && temps == map[] && !loggedIn
    {
      store := initial;
      temps := map[];
      loggedIn := false;
    }

    /**
     * `checkAuth`: `None` lets the request through to the handler; otherwise
     * the answer is the redirect to the login page.
     */
    function CheckAuth(): (denied: Option<Response>)
      reads this
      ensures denied.None? <==> loggedIn
      ensures denied.Some? ==> denied.value == Redirect("/login")
    {
      if loggedIn then None else Some(Redirect("/login"))
    }

    /**
     * `express.static('uploads')` on a GET: a file of the directory whose
     * name is the request path (`index.html` for `/`) is sent and the routes
     * behind it never run; otherwise the request falls through (`None`).
     * Names starting with a dot are not served.
     */
    function Static(name: string): (served: Option<Response>)
      reads this
      ensures served.Some? <==> name in store && !IsDotFile(name)
      ensures served.Some? ==> served.value == ServeStatic(name, store[name])
    {
      if name in store && !IsDotFile(name) then Some(ServeStatic(name, store[name])) else None
    }

    /** `GET /`: the `.iso` files of the directory, in directory order. */
    method Home(order: seq<string>) returns (resp: Response)
      requires ListsDirectory(order, store)
      ensures "index.html" in store ==> resp == ServeStatic("index.html", store["index.html"])
      ensures "index.html" !in store ==> resp == Render(IndexView(IsoListing(order, store), None))
    {
      var served := Static("index.html");
      if served.Some? {
        return served.value;
      }
      resp := Render(IndexView(IsoListing(order, store), None));
    }

    /** `GET /search?q=`: the `.iso` files whose name contains the query, ignoring case. */
    method Search(order: seq<string>, q: Option<string>) returns (resp: Response)
      requires ListsDirectory(order, store)
      ensures "search" in store ==> resp == ServeStatic("search", store["search"])
      ensures "search" !in store ==>
        resp == Render(IndexView(SearchListing(order, store, q), Some(SearchQuery(q))))
    {
      var served := Static("search");
      if served.Some? {
        return served.value;
      }
      var query := SearchQuery(q);
      resp := Render(IndexView(SearchListing(order, store, q), Some(query)));
    }

    /** `GET /download/:filename`: the file if it exists, otherwise 404. */
    method Download(filename: string) returns (resp: Response)
      ensures resp.SendFile? <==> filename in store
      ensures filename in store ==> resp == SendFile(filename, store[filename])
      ensures filename !in store ==> resp == Send(404, NotFoundText)
    {
      if filename in store {
        resp := SendFile(filename, store[filename]);
      } else {
        resp := Send(404, NotFoundText);
      }
    }

    /**
     * `POST /login`: the right password logs the session in and redirects to
     * the admin page; anything else, an absent field included, re-renders the
     * login page with an error and leaves the session as it was.
     */
    method Login(password: Option<string>) returns (resp: Response)
      modifies this`loggedIn
      ensures password == Some(Password) ==> loggedIn && resp == Redirect("/admin-upload")
      ensures password != Some(Password) ==>
        loggedIn == old(loggedIn) && resp == Render(LoginView(Some(WrongPassword)))
    {
      if password == Some(Password) {
        loggedIn := true;
        resp := Redirect("/admin-upload");
      } else {
        resp := Render(LoginView(Some(WrongPassword)));
      }
    }

    /**
     * `GET /logout`: the session is destroyed; the next request is anonymous.
     * A file named `logout` is served instead, and the session survives.
     */
    method Logout() returns (resp: Response)
      modifies this`loggedIn
      ensures "logout" in store ==>
        loggedIn == old(loggedIn) && resp == ServeStatic("logout", store["logout"])
      ensures "logout" !in store ==> !loggedIn && resp == Redirect("/")
    {
      var served := Static("logout");
      if served.Some? {
        return served.value;
      }
      loggedIn := false;
      resp := Redirect("/");
    }

    /**
     * `GET /admin-upload`: behind `checkAuth`, the same listing as `/`. A
     * file named `admin-upload` is served to anyone, before `checkAuth`.
     */
    method AdminUpload(order: seq<string>) returns (resp: Response)
      requires ListsDirectory(order, store)
      ensures "admin-upload" in store ==> resp == ServeStatic("admin-upload", store["admin-upload"])
      ensures "admin-upload" !in store && !loggedIn ==> resp == Redirect("/login")
      ensures "admin-upload" !in store && loggedIn ==>
        resp == Render(AdminView(IsoListing(order, store), None))
    {
      var served := Static("admin-upload");
      if served.Some? {
        return served.value;
      }
      var denied := CheckAuth();
      if denied.Some? {
        return denied.value;
      }
      resp := Render(AdminView(IsoListing(order, store), None));
    }

    /**
     * `GET /admin-search?q=`: behind `checkAuth`, the same search as
     * `/search`. A file named `admin-search` is served to anyone, before
     * `checkAuth`.
     */
    method AdminSearch(order: seq<string>, q: Option<string>) returns (resp: Response)
      requires ListsDirectory(order, store)
      ensures "admin-search" in store ==> resp == ServeStatic("admin-search", store["admin-search"])
      ensures "admin-search" !in store && !loggedIn ==> resp == Redirect("/login")
      ensures "admin-search" !in store && loggedIn ==>
        resp == Render(AdminView(SearchListing(order, store, q), Some(SearchQuery(q))))
    {
      var served := Static("admin-search");
      if served.Some? {
        return served.value;
      }
      var denied := CheckAuth();
      if denied.Some? {
        return denied.value;
      }
      var query := SearchQuery(q);
      resp := Render(AdminView(SearchListing(order, store, q), Some(query)));
    }

    /** `upload.single('file')`: multer writes the part to a fresh temporary file. */
    method Receive(part: Part, tmp: string) returns (file: StoredFile)
      requires tmp !in temps
      modifies this`temps
      ensures temps == old(temps)[tmp := part.size]
      ensures file == StoredFile(part.originalname, tmp)
    {
      temps := temps[tmp := part.size];
      file := StoredFile(part.originalname, tmp);
    }

    /**
     * `POST /upload`: `checkAuth`, then multer, then the handler. A file whose
     * name does not end in `.iso` is removed from the temporary area and the
     * directory is left alone; an `.iso` file is moved into the directory
     * under its original name, replacing a file of that name. Either way the
     * temporary file is gone afterwards. A request without a file part makes
     * the handler throw.
     */
    method Upload(part: Option<Part>, tmp: string) returns (resp: Response)
      requires tmp !in temps
      modifies this`store, this`temps
      ensures temps == old(temps) && tmp !in temps
      ensures !loggedIn ==> resp == Redirect("/login") && store == old(store)
      ensures loggedIn && part.None? ==> resp == Fault && store == old(store)
      ensures loggedIn && part.Some? && !IsIso(part.value.originalname) ==>
        resp == Send(200, OnlyIso) && store == old(store)
      ensures loggedIn && part.Some? && IsIso(part.value.originalname) ==>
        resp == Redirect("/admin-upload") &&
        store == old(store)[part.value.originalname := part.value.size]
    {
      var denied := CheckAuth();
      if denied.Some? {
        return denied.value;
      }
      if part.None? {
        return Fault;
      }
      var file := Receive(part.value, tmp);
      if !IsIso(file.originalname) {
        temps := temps - {file.path};
        return Send(200, OnlyIso);
      }
      store := store[file.originalname := temps[file.path]];
      temps := temps - {file.path};
      resp := Redirect("/admin-upload");
    }

    /**
     * `POST /delete`: behind `checkAuth`, removes the named file if it exists
     * and does nothing otherwise; no other file changes. A request without a
     * `filename` field makes the handler throw.
     */
    method Delete(filename: Option<string>) returns (resp: Response)
      modifies this`store
      ensures !loggedIn ==> resp == Redirect("/login") && store == old(store)
      ensures loggedIn && filename.None? ==> resp == Fault && store == old(store)
      ensures loggedIn && filename.Some? ==>
        resp == Redirect("/admin-upload") && store == old(store) - {filename.value}
    {
      var denied := CheckAuth();
      if denied.Some? {
        return denied.value;
      }
      if filename.None? {
        return Fault;
      }
      if filename.value in store {
        store := store - {filename.value};
      }
      resp := Redirect("/admin-upload");
    }
  }
}
