/**
 * The request's cookie jar as SvelteKit's `cookies` object exposes it:
 * `getAll`, `set` and `delete`. The jar holds at most one cookie per name; a
 * cookie's identity is its name.
 */
module Cookies {
  import opened Js
  import opened Seqs

  datatype Cookie = Cookie(name: string, value: string, path: string, expires: Option<int>, secure: bool)

  /** The cookies the Supabase client owns: their names start with `sb-`. */
  predicate IsSupabaseCookie(c: Cookie) {
    StartsWith(c.name, "sb-")
  }

  predicate NotSupabaseCookie(c: Cookie) {
    !IsSupabaseCookie(c)
  }

  ghost predicate NamesDistinct(cs: seq<Cookie>) {
    forall i, j :: 0 <= i < j < |cs| ==> cs[i].name != cs[j].name
  }

  predicate HasName(cs: seq<Cookie>, name: string) {
    exists i :: 0 <= i < |cs| && cs[i].name == name
  }

  /** The jar after `set(c)`: a cookie of that name is replaced where it stands, otherwise `c` is added last. */
  function Upsert(cs: seq<Cookie>, c: Cookie): (r: seq<Cookie>)
    ensures HasName(cs, c.name) ==> |r| == |cs| && forall i :: 0 <= i < |cs| ==> r[i] == if cs[i].name == c.name then c else cs[i]
    ensures !HasName(cs, c.name) ==> r == cs + [c]
  {
    if HasName(cs, c.name) then seq(|cs|, i requires 0 <= i < |cs| => if cs[i].name == c.name then c else cs[i])
    else cs + [c]
  }

  /** The jar after `delete(name)`. */
  function Remove(cs: seq<Cookie>, name: string): seq<Cookie> {
    Filter(cs, (c: Cookie) => c.name != name)
  }

  lemma UpsertKeepsNamesDistinct(cs: seq<Cookie>, c: Cookie)
    requires NamesDistinct(cs)
    ensures NamesDistinct(Upsert(cs, c))
    ensures HasName(Upsert(cs, c), c.name)
  {
    var r := Upsert(cs, c);
    if !HasName(cs, c.name) {
      assert r[|r| - 1] == c;
    } else {
      var k :| 0 <= k < |cs| && cs[k].name == c.name;
      assert r[k] == c;
    }
  }

  lemma RemoveKeepsNamesDistinct(cs: seq<Cookie>, name: string)
    requires NamesDistinct(cs)
    ensures NamesDistinct(Remove(cs, name))
    ensures !HasName(Remove(cs, name), name)
  {
    var key := (c: Cookie) => c.name;
    assert forall i, j :: 0 <= i < j < |cs| ==> key(cs[i]) != key(cs[j]);
    FilterKeepsKeysDistinct(cs, (c: Cookie) => c.name != name, key);
  }

  class CookieJar {
    var cookies: seq<Cookie>

    ghost predicate Valid()
      reads this
    {
      NamesDistinct(cookies)
    }

    constructor (initial: seq<Cookie>)
      requires NamesDistinct(initial)
      ensures Valid() && cookies == initial
    {
      cookies := initial;
    }

    /** `cookies.getAll()`. */
    function GetAll(): seq<Cookie>
      reads this
    {
      cookies
    }

    /** `cookies.set(name, value, options)`. */
    method Set(c: Cookie)
      requires Valid()
      modifies this
      ensures Valid() && HasName(cookies, c.name)
      ensures cookies == Upsert(old(cookies), c)
    {
      UpsertKeepsNamesDistinct(cookies, c);
      cookies := Upsert(cookies, c);
    }

    /** `cookies.delete(name, { path: '/' })`. */
    method Delete(name: string)
      requires Valid()
      modifies this
      ensures Valid() && !HasName(cookies, name)
      ensures cookies == Remove(old(cookies), name)
    {
      RemoveKeepsNamesDistinct(cookies, name);
      cookies := Remove(cookies, name);
    }

    /**
     * `cookies.getAll().forEach(c => { if (c.name.startsWith('sb-')) cookies.delete(c.name, { path: '/' }) })`:
     * every `sb-` cookie is deleted and the others stay, in their order.
     */
    method DeleteSupabaseCookies()
      requires Valid()
      modifies this
      ensures Valid()
      ensures cookies == Filter(old(cookies), NotSupabaseCookie)
    {
      var all := GetAll();
      for i := 0 to |all|
        invariant Valid()
        invariant cookies == Filter(all[..i], NotSupabaseCookie) + all[i..]
      {
        var c := all[i];
        if IsSupabaseCookie(c) {
          DeleteOneOf(all, i);
          Delete(c.name);
        } else {
          KeepOneOf(all, i);
        }
      }
      assert all[..|all|] == all;
    }

    /** `setAll` of the Supabase client: each write is stored with path `/` and the production `secure` flag. */
    method SetAll(writes: seq<CookieWrite>, production: bool)
      requires Valid()
      modifies this
      ensures Valid()
      ensures cookies == ApplyWrites(old(cookies), writes, production)
    {
      ghost var start := cookies;
      for i := 0 to |writes|
        invariant Valid()
        invariant cookies == ApplyWrites(start, writes[..i], production)
      {
        assert writes[..i + 1][..i] == writes[..i];
        Set(Forced(writes[i], production));
      }
      assert writes[..|writes|] == writes;
    }
  }

  /** Deleting the `sb-` cookie at position `i` of a jar whose first `i` cookies were already filtered. */
  lemma DeleteOneOf(all: seq<Cookie>, i: int)
    requires NamesDistinct(all) && 0 <= i < |all| && IsSupabaseCookie(all[i])
    ensures Remove(Filter(all[..i], NotSupabaseCookie) + all[i..], all[i].name)
         == Filter(all[..i + 1], NotSupabaseCookie) + all[i + 1..]
  {
    var name := all[i].name;
    var done := Filter(all[..i], NotSupabaseCookie);
    calc {
      Remove(done + all[i..], name);
    == { RemoveAppend(done, all[i..], name); }
      Remove(done, name) + Remove(all[i..], name);
    == { RemoveFiltered(all, i); RemoveOnlyNamed(all, i); }
      done + all[i + 1..];
    == { assert all[..i + 1] == all[..i] + [all[i]];
         FilterAppend(all[..i], [all[i]], NotSupabaseCookie);
         FilterSingleton(all[i], NotSupabaseCookie); }
      Filter(all[..i + 1], NotSupabaseCookie) + all[i + 1..];
    }
  }

  lemma RemoveAppend(a: seq<Cookie>, b: seq<Cookie>, name: string)
    ensures Remove(a + b, name) == Remove(a, name) + Remove(b, name)
  {
    FilterAppend(a, b, (c: Cookie) => c.name != name);
  }

  /** The cookies kept from before position `i` never carry the name of the cookie at `i`. */
  lemma RemoveFiltered(all: seq<Cookie>, i: int)
    requires NamesDistinct(all) && 0 <= i < |all|
    ensures Remove(Filter(all[..i], NotSupabaseCookie), all[i].name) == Filter(all[..i], NotSupabaseCookie)
  {
    var done := Filter(all[..i], NotSupabaseCookie);
    var ne := (c: Cookie) => c.name != all[i].name;
    forall c | c in done
      ensures ne(c)
    {
      var j :| 0 <= j < |done| && done[j] == c;
      assert c in all[..i];
      var k :| 0 <= k < i && all[..i][k] == c;
      assert all[k] == c;
    }
    FilterAll(done, ne);
  }

  lemma KeepOneOf(all: seq<Cookie>, i: int)
    requires 0 <= i < |all| && !IsSupabaseCookie(all[i])
    ensures Filter(all[..i], NotSupabaseCookie) + all[i..] == Filter(all[..i + 1], NotSupabaseCookie) + all[i + 1..]
  {
    assert all[..i + 1][..i] == all[..i];
    assert all[i..] == [all[i]] + all[i + 1..];
  }

  lemma RemoveOnlyNamed(all: seq<Cookie>, i: int)
    requires NamesDistinct(all) && 0 <= i < |all|
    ensures Remove(all[i..], all[i].name) == all[i + 1..]
  {
    var name := all[i].name;
    var ne := (c: Cookie) => c.name != name;
    var rest := all[i + 1..];
    assert all[i..] == [all[i]] + rest;
    FilterAppend([all[i]], rest, ne);
    FilterSingleton(all[i], ne);
    LaterNamesDiffer(all, i);
    assert forall c :: c in rest ==> ne(c);
    FilterAll(rest, ne);
  }

  lemma LaterNamesDiffer(all: seq<Cookie>, i: int)
    requires NamesDistinct(all) && 0 <= i < |all|
    ensures forall c :: c in all[i + 1..] ==> c.name != all[i].name
  {
    forall c | c in all[i + 1..]
      ensures c.name != all[i].name
    {
      var k :| i + 1 <= k < |all| && all[k] == c;
    }
  }

  // ---------------------------------------------------------------- setAll

  /** A cookie the Supabase client asks to write, with the options it passes. */
  datatype CookieWrite = CookieWrite(name: string, value: string, path: Option<string>, expires: Option<int>, secure: bool)

  /** `{ ...options, path: '/', secure: process.env.NODE_ENV === 'production' }`. */
  function Forced(w: CookieWrite, production: bool): Cookie {
    Cookie(w.name, w.value, "/", w.expires, production)
  }

  /** The jar after the writes, one after another. */
  function ApplyWrites(cs: seq<Cookie>, writes: seq<CookieWrite>, production: bool): seq<Cookie> {
    if writes == [] then cs
    else Upsert(ApplyWrites(cs, writes[..|writes| - 1], production), Forced(writes[|writes| - 1], production))
  }

  predicate Written(writes: seq<CookieWrite>, name: string) {
    exists i :: 0 <= i < |writes| && writes[i].name == name
  }

  /**
   * After `setAll`, every cookie of a written name has path `/` and the
   * environment's `secure` flag, whatever options were asked for; a cookie of
   * a name not written is still there, unchanged.
   */
  lemma SetAllForcesRootPath(cs: seq<Cookie>, writes: seq<CookieWrite>, production: bool)
    ensures var r := ApplyWrites(cs, writes, production);
      && (forall i :: 0 <= i < |r| && Written(writes, r[i].name) ==> r[i].path == "/" && r[i].secure == production)
      && (forall i :: 0 <= i < |cs| && !Written(writes, cs[i].name) ==> cs[i] in r)
  {
    forall i | 0 <= i < |ApplyWrites(cs, writes, production)| && Written(writes, ApplyWrites(cs, writes, production)[i].name) {
      WrittenCookieForced(cs, writes, production, i);
    }
    forall i | 0 <= i < |cs| && !Written(writes, cs[i].name) {
      UnwrittenCookieKept(cs, writes, production, i);
    }
  }

  lemma {:induction false} WrittenCookieForced(cs: seq<Cookie>, writes: seq<CookieWrite>, production: bool, i: int)
    requires 0 <= i < |ApplyWrites(cs, writes, production)|
    requires Written(writes, ApplyWrites(cs, writes, production)[i].name)
    ensures ApplyWrites(cs, writes, production)[i].path == "/"
    ensures ApplyWrites(cs, writes, production)[i].secure == production
  {
    var init := writes[..|writes| - 1];
    var w := Forced(writes[|writes| - 1], production);
    var before := ApplyWrites(cs, init, production);
    var r := Upsert(before, w);
    if r[i] != w {
      assert i < |before| && r[i] == before[i] && r[i].name != w.name;
      var k :| 0 <= k < |writes| && writes[k].name == r[i].name;
      assert k < |init| && init[k].name == before[i].name;
      WrittenCookieForced(cs, init, production, i);
    }
  }

  lemma {:induction false} UnwrittenCookieKept(cs: seq<Cookie>, writes: seq<CookieWrite>, production: bool, i: int)
    requires 0 <= i < |cs| && !Written(writes, cs[i].name)
    ensures cs[i] in ApplyWrites(cs, writes, production)
  {
    if writes != [] {
      var init := writes[..|writes| - 1];
      var w := Forced(writes[|writes| - 1], production);
      var before := ApplyWrites(cs, init, production);
      assert !Written(init, cs[i].name);
      UnwrittenCookieKept(cs, init, production, i);
      var k :| 0 <= k < |before| && before[k] == cs[i];
      assert cs[i].name != w.name;
      assert Upsert(before, w)[k] == cs[i];
    }
  }
}
