# ISO share: a verified model of the server's request handling

The ISO share is a small Express application (`server.js`). Visitors list,
search and download the `.iso` disk images kept in an `uploads` directory.
An admin logs in with a fixed password and can then upload and delete files.
This project models, in Dafny, what that file does under its framework wiring:

- **Listing and search** (`listing.dfy`, module `Listing`). The directory is
  a map from file name to size. The order in which `readdirSync` returns the
  names is a sequence. The listing of `/` and `/admin-upload` keeps the names
  that end in `.iso`; this test is case-sensitive. The search of `/search`
  and `/admin-search` also keeps a name only when its lowercase form contains
  the lowercased query. An absent query counts as `''`. Both listings then
  pair each kept name with its size.
- **String operations** (`text.dfy`, module `Text`). These are `toLowerCase`
  (ASCII letters only), `endsWith` and `includes`. `includes` is defined
  through a prefix test and proved equal to an offset-based definition.
- **Routes** (`server.dfy`, module `IsoShare`). A `Server` object holds the
  uploads directory (`store`), multer's temporary files (`temps`) and the
  session flag `loggedIn`. Each route is one method. The `checkAuth` gate is
  the function `CheckAuth`. A thrown exception is the response `Fault`,
  which Express answers with status 500.
- **Static files shadow routes.** `express.static('uploads')` is mounted
  before every route (`server.js:15`), and the function `Static` models it.
  On a GET, a file of the directory named like the request path is sent
  instead. A file `index.html` answers `/`. Files named `search`, `logout`,
  `admin-upload` or `admin-search` answer those routes. A file named
  `logout` therefore keeps `/logout` from ending the session. A file named
  `admin-upload` or `admin-search` is served before `checkAuth` runs.
- **Request sequences** (`scenarios.dfy`, module `Scenarios`). Some client
  methods chain routes: an upload and then the listing, a delete and then the
  listing, deleting twice, anonymous writes, login and then the admin page,
  logout and then the admin page.

What the code does, and where its tests expect something else. The model
follows the code:

- No route sanitises a file name. `tests/server.test.js:77-83` expects a 400
  "Invalid filename" for `/download/../etc/passwd`. `server.js` has no such
  answer: a download answers 404 only when the file does not exist. The
  model therefore claims no path safety.
- Download and delete do not check the extension. A test
  (`tests/server.test.js:85-91`) expects a 404 for an existing `test.txt`.
  In the code, any existing file is sent and any existing file can be
  deleted.
- A request to `/upload` with no file part throws (`file.originalname` of
  `undefined`). So does a request to `/delete` whose `filename` is absent
  or not a string, because `path.join` throws. The state is unchanged. The
  model answers `Fault`. A body field is `None` both when it is absent and
  when it is not a string.
- A wrong password while already logged in leaves the session logged in.
  Login changes the session only on success.
- The uploaded size is the size of multer's temporary file. The rename
  replaces a file of the same name.

## Model

| member | source | states |
|---|---|---|
| `Text.LowerChar` | server.js:112 | ASCII capitals map to the letter 32 code points up; every other character is kept; the result is never a capital |
| `Text.Lower` | server.js:110-112 | the lowercase form keeps the length and contains no capital; each ASCII capital becomes its lower-case letter (32 code points up), and every other character is kept |
| `Text.LowerFixesNoUpper` | server.js:112 | a string without capitals is its own lowercase form |
| `Text.LowerIdempotent` | server.js:110-112 | lowercasing twice equals lowercasing once |
| `Text.EndsWith` | server.js:36 | `s.endsWith(t)` holds exactly when `t` is no longer than `s` and matches the last characters of `s` one by one, case included |
| `Text.Includes` | server.js:112 | every string includes `''`; an included string is never longer than the string containing it |
| `Text.IncludesIff` | server.js:112 | `includes` holds exactly when the needle occurs at some offset of the haystack (both directions) |
| `Text.IncludesKeepsChars` | server.js:112 | each character of an included needle occurs in the haystack |
| `Listing.IsIso` | server.js:36 | a name passes exactly when it has at least four characters and its last four are `.`, `i`, `s`, `o` as written (lower case) |
| `Listing.Matches` | server.js:111-112 | a matching name ends in `.iso` and is at least as long as the query; for the query `''`, a name matches exactly when it ends in `.iso` |
| `Listing.Filter` | server.js:36 | the kept elements are exactly those of the input that pass the test; each occurs as often as in the input; they form an order-preserving subsequence of the input |
| `Listing.WithSizes` | server.js:37-40 | the names are kept in order, and an entry is produced exactly when its name is one of them and its size is that file's size |
| `Listing.IsoListing` | server.js:36-40 | an entry is listed exactly when its name is in the directory, ends in `.iso`, and its size is that file's size |
| `Listing.ListingInDirectoryOrder` | server.js:36-40 | the listing's names are the directory's names with the non-`.iso` ones removed and the rest in directory order |
| `Listing.SearchQuery` | server.js:110 | an absent query becomes `''`; a present one is lowercased; the result never contains a capital |
| `Listing.SearchListing` | server.js:110-117 | an entry is found exactly when its name is in the directory, ends in `.iso`, its lowercase form includes the lowercased query, and its size is that file's size |
| `Listing.SearchWithinListing` | server.js:111-113 | every search result is an order-preserving subsequence of the plain listing |
| `Listing.EmptySearchIsListing` | server.js:110-113 | a search with no query or with `''` returns exactly the plain listing |
| `Listing.SearchIgnoresQueryCase` | server.js:110 | a query and its lowercase form give the same result |
| `Listing.UploadedIsListed` | server.js:86-87 | after an `.iso` name is set to a size, the listing contains that name with that size |
| `Listing.DeletedIsNotListed` | server.js:94-97 | after a name is removed from the directory, no listed entry has that name |
| `Listing.UpperCaseExtensionIsNotListed` | server.js:36 | `UBUNTU.ISO` fails the `.iso` test and is not listed, because the test is case-sensitive |
| `Listing.UbuntuMatchesUbuntu` | server.js:112 | the query `ubuntu` is already lowercase and matches `ubuntu.iso` |
| `Listing.UbuntuMissesName` | server.js:112 | a lowercase name without the letter `b` does not match `ubuntu` |
| `Listing.SearchUbuntuExample` | tests/server.test.js:94-101 | searching `ubuntu` among `ubuntu.iso`, `windows.iso`, `test.iso`, whatever their sizes, returns `ubuntu.iso` alone |
| `IsoShare.ListsDirectory` | server.js:36 | what `readdirSync` returns names every file of the directory exactly once, so it has as many names as the directory has files |
| `IsoShare.Server.Static` | server.js:15 | a GET is answered with the file named like its path exactly when that file exists and its name does not start with a dot; otherwise it falls through to the routes |
| `IsoShare.Server.CheckAuth` | server.js:27-32 | the request passes exactly when the session is logged in; otherwise the answer is the redirect to `/login` |
| `IsoShare.Server.Home` | server.js:35-42 | `GET /` serves a file `index.html` if there is one; otherwise it renders the index page with the `.iso` listing of the directory |
| `IsoShare.Server.Search` | server.js:109-119 | `GET /search` serves a file `search` if there is one; otherwise it renders the index page with the search listing and the lowercased query |
| `IsoShare.Server.Download` | server.js:45-52 | the file is sent exactly when it exists, with its size; otherwise the answer is 404 "Datei nicht gefunden" |
| `IsoShare.Server.Login` | server.js:59-67 | the exact password logs in and redirects to `/admin-upload`; any other or absent password leaves the session unchanged and re-renders the login page with "Falsches Passwort!" |
| `IsoShare.Server.Logout` | server.js:102-106 | afterwards the session is not logged in, and the answer redirects to `/`; a file `logout` is served instead and the session is kept |
| `IsoShare.Server.AdminUpload` | server.js:70-77 | a file `admin-upload` is served to anyone; otherwise, without a session, a redirect to `/login`, and with one, the admin page with the `.iso` listing |
| `IsoShare.Server.AdminSearch` | server.js:122-132 | a file `admin-search` is served to anyone; otherwise, without a session, a redirect to `/login`, and with one, the admin page with the search listing and the lowercased query |
| `IsoShare.Server.Receive` | server.js:11 | multer stores the part as a new temporary file of the part's size and hands over its original name and path |
| `IsoShare.Server.Upload` | server.js:80-89 | without a session: a redirect, nothing changes. Without a file: a fault, nothing changes. A non-`.iso` name: its temporary file is deleted, the directory is unchanged and the answer is "Nur .iso-Dateien erlaubt!". An `.iso` name: the directory maps it to the uploaded size, replacing any earlier entry, and no other name changes. In every case the temporary file is gone afterwards |
| `IsoShare.Server.Delete` | server.js:92-99 | without a session: a redirect, nothing changes. Without a string name: a fault, nothing changes. Otherwise exactly that name is removed if present, so an absent name changes nothing |
| `Scenarios.UploadThenHome` | server.js:80-89 | an `.iso` upload followed by `GET /` lists the uploaded name with its size, when no `index.html` shadows the listing |
| `Scenarios.DeleteThenHome` | server.js:92-99 | a delete followed by `GET /` no longer lists the name, when no `index.html` shadows the listing |
| `Scenarios.DeleteTwice` | server.js:92-99 | deleting a name twice leaves the same directory as deleting it once; both answers redirect to `/admin-upload` |
| `Scenarios.AnonymousCannotChange` | server.js:27-32 | without a session, upload and delete both redirect to `/login` and change neither the directory nor the temporary files |
| `Scenarios.LoginThenAdmin` | tests/server.test.js:47-73 | on a fresh server without a file `admin-upload`, the right password leads to the admin listing; a wrong one re-renders the login page with the error, and `/admin-upload` then redirects to `/login` |
| `Scenarios.LogoutThenAdmin` | server.js:102-106 | after a logout, `/admin-upload` redirects to `/login`, when no file `logout` or `admin-upload` shadows those routes |

## Left out

- Express, multer and express-session setup, EJS rendering, `app.listen` and logging. These are framework plumbing. `GET /login` only renders the empty login form.
- IsoShare.Server.Static: static serving is modelled for flat file names and GET only. The model has no subdirectories. So it does not capture `/download/<name>` being answered from a subdirectory `download`. It also does not capture directory redirects, HEAD requests, or the static answer to `GET /login` from a file `login`. That route is not modelled.
- readdirSync order: it is a parameter. It must list every file of the directory exactly once (`ListsDirectory`).
- statSync failures: a file's size is its value in the map, so this lookup cannot fail.
- Path semantics: `path.join` normalisation and traversal outside `uploads` are not modelled. A name is a key of the directory map verbatim.
- IsoShare.Server.Delete: a name that `path.join` resolves to the uploads directory itself (`''`, `.`) is treated as an absent name, and the model answers the redirect. In the code, `existsSync` is true for the directory and `unlinkSync` throws, so the answer is 500.
- IsoShare.Server.Download: a name that resolves to the uploads directory itself is treated as absent, and the model answers 404. In the code, `existsSync` is true and `res.download` of a directory fails.
- cwd paths: the listing (`./uploads`) and the handlers (`__dirname/uploads`) are taken to be the same directory.
- Temporary files: multer writes them inside `uploads`, so for the length of a request they are files of that directory. The model keeps them in a separate map. It also assumes multer picks a path that is not already in use.
- Text.Lower: models `toLowerCase` on ASCII letters only. Unicode case mapping is left out.
- API shape: body fields are optional strings. A non-string `password` or `filename` (a JSON number, or `filename[]=x` under the extended urlencoded parser) is the same `None` as an absent one. It fails the login comparison. It makes `/delete` throw, which the model answers with `Fault`.
- IsoShare.Server.Search: a non-string `q` (an array such as `?q=a&q=b`, or an object such as `?q[a]=b` under the extended query parser), which makes `toLowerCase` throw, is not modelled. The query is an optional string. The same holds for `IsoShare.Server.AdminSearch`.
- Sessions: expiry, cookies and the session secret are left out. Logout is modelled as the current client's session becoming anonymous.
- Concurrency: races between concurrent uploads and deletes are not modelled.
- Cookie consent: `public/cookie-consent.js` is browser UI and is not part of this model.
