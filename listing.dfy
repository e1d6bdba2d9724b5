/**
 * The directory listing and the search filter of the public and admin pages.
 *
 * Both are pipelines over the names `readdirSync` returns: keep some names
 * (`filter`), then pair each kept name with its size (`map` over `statSync`).
 * The directory itself is a map from file name to size; the order in which
 * `readdirSync` returns the names is the sequence `names`.
 */
module Listing {
  import opened Wrappers
  import opened Text

  /** One row of a rendered listing: `{ name, size }`. */
  datatype Entry = Entry(name: string, size: nat)

  /** The only extension the listing shows. */
  const IsoExtension: string := ".iso"

  /** `f.endsWith('.iso')`: the listing's test, case-sensitive. */
  predicate IsIso(name: string)
    ensures IsIso(name) <==>
      && |name| >= 4
      && name[|name| - 4] == '.' && name[|name| - 3] == 'i'
      && name[|name| - 2] == 's' && name[|name| - 1] == 'o'
  {
    EndsWith(name, IsoExtension)
  }

  /** The search test on one name, for an already-lowercased query. */
  predicate Matches(query: string, name: string)
    ensures Matches(query, name) ==> IsIso(name) && |query| <= |name|
    ensures query == "" ==> (Matches(query, name) <==> IsIso(name))
  {
    IsIso(name) && Includes(Lower(name), query)
  }

  /** `a` is `b` with some elements dropped and the rest kept in order. */
  ghost predicate IsSubsequence<T>(a: seq<T>, b: seq<T>)
    decreases |b|
  {
    |a| == 0 ||
    (|b| > 0 && ((a[0] == b[0] && IsSubsequence(a[1..], b[1..])) || IsSubsequence(a, b[1..])))
  }

  /** `Array.prototype.filter`: the elements that pass `keep`, in their order. */
  function Filter<T(==)>(s: seq<T>, keep: T -> bool): (r: seq<T>)
    ensures forall i | 0 <= i < |r| :: r[i] in s && keep(r[i])
    ensures forall i | 0 <= i < |s| && keep(s[i]) :: s[i] in r
    ensures forall x | x in s :: multiset(r)[x] == if keep(x) then multiset(s)[x] else 0
    ensures IsSubsequence(r, s)
    decreases |s|
  {
    if |s| == 0 then []
    else
      assert s == [s[0]] + s[1..];
      if keep(s[0]) then [s[0]] + Filter(s[1..], keep)
      else Filter(s[1..], keep)
  }

  /** The `statSync` step: pair each name with its size in the directory. */
  function WithSizes(names: seq<string>, dir: map<string, nat>): (r: seq<Entry>)
    requires forall n | n in names :: n in dir
    ensures NamesOf(r) == names
    ensures forall e :: e in r <==> e.name in names && e.size == dir[e.name]
  {
    var r := seq(|names|, i requires 0 <= i < |names| => Entry(names[i], dir[names[i]]));
    assert forall n | n in names :: Entry(n, dir[n]) in r by {
      forall n | n in names ensures Entry(n, dir[n]) in r {
        var i :| 0 <= i < |names| && names[i] == n;
        assert r[i] == Entry(n, dir[n]);
      }
    }
    r
  }

  /** The names of a listing, in its order. */
  function NamesOf(entries: seq<Entry>): (names: seq<string>) {
    seq(|entries|, i requires 0 <= i < |entries| => entries[i].name)
  }

  /**
   * The listing of `/` and `/admin-upload`: the `.iso` names in directory
   * order, each with its size.
   */
  function IsoListing(names: seq<string>, dir: map<string, nat>): (r: seq<Entry>)
    requires forall n | n in names :: n in dir
    ensures forall e :: e in r <==> e.name in names && IsIso(e.name) && e.size == dir[e.name]
  {
    var kept := Filter(names, IsIso);
    WithSizes(kept, dir)
  }

  /** `req.query.q?.toLowerCase() || ''`: the lowercased query, or '' when absent. */
  function SearchQuery(q: Option<string>): (query: string)
    ensures q.None? ==> query == ""
    ensures q.Some? ==> query == Lower(q.value)
    ensures NoUpper(query)
  {
    match q
    case None => ""
    case Some(s) => Lower(s)
  }

  /**
   * The listing of `/search` and `/admin-search`: the `.iso` names whose
   * lowercase form contains the lowercased query, in directory order, each
   * with its size.
   */
  function SearchListing(names: seq<string>, dir: map<string, nat>, q: Option<string>): (r: seq<Entry>)
    requires forall n | n in names :: n in dir
    ensures forall e :: e in r <==>
      e.name in names && IsIso(e.name) && Includes(Lower(e.name), SearchQuery(q)) && e.size == dir[e.name]
  {
    var query := SearchQuery(q);
    var kept := Filter(names, n => Matches(query, n));
    WithSizes(kept, dir)
  }

  /** Attaching sizes to a subsequence of names gives a subsequence of entries. */
  lemma {:induction false} WithSizesKeepsOrder(a: seq<string>, b: seq<string>, dir: map<string, nat>)
    requires forall n | n in b :: n in dir
    requires IsSubsequence(a, b)
    ensures forall n | n in a :: n in dir
    ensures IsSubsequence(WithSizes(a, dir), WithSizes(b, dir))
    decreases |b|
  {
    SubsequenceMembers(a, b);
    if |a| > 0 {
      assert WithSizes(b, dir)[1..] == WithSizes(b[1..], dir);
      if a[0] == b[0] && IsSubsequence(a[1..], b[1..]) {
        WithSizesKeepsOrder(a[1..], b[1..], dir);
        assert WithSizes(a, dir)[1..] == WithSizes(a[1..], dir);
      } else {
        WithSizesKeepsOrder(a, b[1..], dir);
      }
    }
  }

  /** Every element of a subsequence is an element of the whole. */
  lemma {:induction false} SubsequenceMembers<T>(a: seq<T>, b: seq<T>)
    requires IsSubsequence(a, b)
    ensures forall x | x in a :: x in b
    decreases |b|
  {
    if |a| > 0 {
      if a[0] == b[0] && IsSubsequence(a[1..], b[1..]) {
        SubsequenceMembers(a[1..], b[1..]);
        assert forall x | x in a :: x == a[0] || x in a[1..];
      } else {
        SubsequenceMembers(a, b[1..]);
      }
    }
  }

  /** Filtering twice is filtering once by both tests. */
  lemma {:induction false} FilterFilter<T>(s: seq<T>, p: T -> bool, q: T -> bool, both: T -> bool)
    requires forall x | x in s :: both(x) == (p(x) && q(x))
    ensures Filter(Filter(s, p), q) == Filter(s, both)
    decreases |s|
  {
    if |s| > 0 {
      FilterFilter(s[1..], p, q, both);
    }
  }

  /** Two tests that agree on every element filter alike. */
  lemma {:induction false} FilterAgree<T>(s: seq<T>, p: T -> bool, q: T -> bool)
    requires forall x | x in s :: p(x) == q(x)
    ensures Filter(s, p) == Filter(s, q)
    decreases |s|
  {
    if |s| > 0 {
      FilterAgree(s[1..], p, q);
    }
  }

  /**
   * The plain listing keeps exactly the `.iso` names, in directory order:
   * its names are the directory's names with the others removed.
   */
  lemma ListingInDirectoryOrder(names: seq<string>, dir: map<string, nat>)
    requires forall n | n in names :: n in dir
    ensures NamesOf(IsoListing(names, dir)) == Filter(names, IsIso)
    ensures IsSubsequence(NamesOf(IsoListing(names, dir)), names)
  {
  }

  /**
   * A search result is the plain listing with some entries dropped and the
   * rest kept in order.
   */
  lemma SearchWithinListing(names: seq<string>, dir: map<string, nat>, q: Option<string>)
    requires forall n | n in names :: n in dir
    ensures IsSubsequence(SearchListing(names, dir, q), IsoListing(names, dir))
  {
    var query := SearchQuery(q);
    var isos := Filter(names, IsIso);
    var hit := (n: string) => Includes(Lower(n), query);
    FilterFilter(names, IsIso, hit, n => Matches(query, n));
    WithSizesKeepsOrder(Filter(isos, hit), isos, dir);
  }

  /** With no query, or the empty one, the search shows the plain listing. */
  lemma EmptySearchIsListing(names: seq<string>, dir: map<string, nat>, q: Option<string>)
    requires forall n | n in names :: n in dir
    requires q == None || q == Some("")
    ensures SearchListing(names, dir, q) == IsoListing(names, dir)
  {
    assert SearchQuery(q) == "";
    FilterAgree(names, n => Matches("", n), IsIso);
  }

  /** The case of the query does not matter: it is lowercased before matching. */
  lemma SearchIgnoresQueryCase(names: seq<string>, dir: map<string, nat>, q: string)
    requires forall n | n in names :: n in dir
    ensures SearchListing(names, dir, Some(q)) == SearchListing(names, dir, Some(Lower(q)))
  {
    LowerIdempotent(q);
  }

  /** A file uploaded under an `.iso` name shows up in the next listing with its size. */
  lemma UploadedIsListed(names: seq<string>, dir: map<string, nat>, name: string, size: nat)
    requires IsIso(name) && name in names
    requires forall n | n in names :: n in dir[name := size]
    ensures Entry(name, size) in IsoListing(names, dir[name := size])
  {
  }

  /** A deleted name no longer shows up in the listing. */
  lemma DeletedIsNotListed(names: seq<string>, dir: map<string, nat>, name: string)
    requires forall n | n in names :: n in dir - {name}
    ensures forall e | e in IsoListing(names, dir - {name}) :: e.name != name
  {
  }

  /** Upper-case extensions are not listed: the test is case-sensitive. */
  lemma UpperCaseExtensionIsNotListed()
    ensures !IsIso("UBUNTU.ISO")
    ensures IsoListing(["UBUNTU.ISO"], map["UBUNTU.ISO" := 1024]) == []
  {
  }

  /** The query "ubuntu" is already lowercase and matches "ubuntu.iso". */
  lemma UbuntuMatchesUbuntu()
    ensures SearchQuery(Some("ubuntu")) == "ubuntu"
    ensures Matches("ubuntu", "ubuntu.iso")
  {
  }

  /** A lowercase name without the letter 'b' does not match "ubuntu". */
  lemma UbuntuMissesName(name: string)
    requires NoUpper(name) && 'b' !in name
    ensures !Matches("ubuntu", name)
  {
    LowerFixesNoUpper(name);
    assert "ubuntu"[1] == 'b';
    if Includes(name, "ubuntu") { IncludesKeepsChars(name, "ubuntu", 'b'); }
  }

  /** Filtering three names of which only the first passes keeps the first. */
  lemma FilterFirstOfThree<T>(x: T, y: T, z: T, keep: T -> bool)
    requires keep(x) && !keep(y) && !keep(z)
    ensures Filter([x, y, z], keep) == [x]
  {
  }

  /** A search over three names of which only the first matches finds the first alone. */
  lemma SearchFirstOfThree(x: string, y: string, z: string, dir: map<string, nat>, q: Option<string>)
    requires x in dir && y in dir && z in dir
    requires Matches(SearchQuery(q), x) && !Matches(SearchQuery(q), y) && !Matches(SearchQuery(q), z)
    ensures SearchListing([x, y, z], dir, q) == [Entry(x, dir[x])]
  {
    FilterFirstOfThree(x, y, z, n => Matches(SearchQuery(q), n));
  }

  /**
   * Searching "ubuntu" among ubuntu.iso, windows.iso and test.iso, of any
   * sizes, finds ubuntu.iso alone.
   */
  lemma SearchUbuntuExample(names: seq<string>, dir: map<string, nat>)
    requires names == ["ubuntu.iso", "windows.iso", "test.iso"]
    requires dir.Keys == {"ubuntu.iso", "windows.iso", "test.iso"}
    ensures SearchListing(names, dir, Some("ubuntu")) == [Entry("ubuntu.iso", dir["ubuntu.iso"])]
  {
    UbuntuMatchesUbuntu();
    UbuntuMissesName("windows.iso");
    UbuntuMissesName("test.iso");
    SearchFirstOfThree("ubuntu.iso", "windows.iso", "test.iso", dir, Some("ubuntu"));
  }
}
