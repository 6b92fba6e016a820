/** Restoring the saved session cookies at the start of `AliExpress.login`:
    only cookies scoped to the two storefront login domains are handed to the
    browser, in their saved order; all others are skipped. */
module Cookies {
  import opened Wrappers

  /** A saved cookie record; only its domain decides whether it is restored. */
  datatype Cookie = Cookie(name: string, value: string, domain: string)

  const StoreDomain := ".aliexpress.com"
  const LoginDomain := "login.aliexpress.com"

  predicate Allowed(c: Cookie) {
    c.domain == StoreDomain || c.domain == LoginDomain
  }

  /** The allowed cookies of `cs`, in the order they appear in `cs`. */
  function Filtered(cs: seq<Cookie>): (r: seq<Cookie>)
    ensures |r| <= |cs|
  {
    if cs == [] then []
    else
      var init := cs[..|cs| - 1];
      var last := cs[|cs| - 1];
      assert cs == init + [last];
      Filtered(init) + (if Allowed(last) then [last] else [])
  }

  /** Restores the saved cookies: `stored` is the unpickled cookie list, or
      None when loading it raised (missing or unreadable file), which is
      reported and otherwise ignored. The result is the sequence of
      `add_cookie` calls made, in order. */
  method RestoreCookies(stored: Option<seq<Cookie>>) returns (injected: seq<Cookie>)
    ensures stored.None? ==> injected == []
    ensures stored.Some? ==> injected == Filtered(stored.value)
  {
    injected := [];
    if stored.None? {
      return;
    }
    var cookies := stored.value;
    var i := 0;
    while i < |cookies|
      invariant 0 <= i <= |cookies|
      invariant injected == Filtered(cookies[..i])
    {
      var cookie := cookies[i];
      assert cookies[..i + 1][..i] == cookies[..i];
      i := i + 1;
      if !Allowed(cookie) {
        continue;
      }
      injected := injected + [cookie];
    }
    assert cookies[..i] == cookies;
  }

  /** A cookie is restored exactly when it was saved and its domain is one of
      the two allowed ones. */
  lemma {:induction false} FilteredMembers(cs: seq<Cookie>, c: Cookie)
    ensures c in Filtered(cs) <==> c in cs && Allowed(c)
  {
    if cs != [] {
      var init := cs[..|cs| - 1];
      FilteredMembers(init, c);
      assert cs == init + [cs[|cs| - 1]];
    }
  }

  /** Filtering a concatenation filters each part: the relative order of the
      restored cookies is the saved order. */
  lemma {:induction false} FilteredAppend(a: seq<Cookie>, b: seq<Cookie>)
    ensures Filtered(a + b) == Filtered(a) + Filtered(b)
    decreases |b|
  {
    if b == [] {
      assert a + b == a;
    } else {
      var b', last := b[..|b| - 1], b[|b| - 1];
      var tail := if Allowed(last) then [last] else [];
      FilteredAppend(a, b');
      assert a + b == (a + b') + [last];
      calc {
        Filtered(a + b);
        { assert (a + b)[..|a + b| - 1] == a + b'; }
        Filtered(a + b') + tail;
        Filtered(a) + Filtered(b') + tail;
        Filtered(a) + Filtered(b);
      }
    }
  }

  /** Each cookie is restored as many times as it was saved if its domain is
      allowed, and never otherwise. */
  lemma {:induction false} FilteredCount(cs: seq<Cookie>, c: Cookie)
    ensures multiset(Filtered(cs))[c] == if Allowed(c) then multiset(cs)[c] else 0
  {
    if cs != [] {
      var init := cs[..|cs| - 1];
      FilteredCount(init, c);
      assert cs == init + [cs[|cs| - 1]];
    }
  }

  /** Restoring already-filtered cookies changes nothing. */
  lemma {:induction false} FilteredIdempotent(cs: seq<Cookie>)
    ensures Filtered(Filtered(cs)) == Filtered(cs)
  {
    if cs != [] {
      var init := cs[..|cs| - 1];
      var last := cs[|cs| - 1];
      FilteredIdempotent(init);
      var tail := if Allowed(last) then [last] else [];
      FilteredAppend(Filtered(init), tail);
      if Allowed(last) {
        assert Filtered([last]) == Filtered([]) + [last] by { assert [last][..0] == []; }
      }
    }
  }
}
