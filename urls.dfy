/**
  The two `toAbsoluteUrl` helpers. `new URL(path, base).toString()` (WHATWG URL
  parsing) is not modelled: it is a parameter that returns None where the
  constructor throws.
*/
module Urls {
  import opened Wrappers
  import opened Patterns

  /** `new URL(path, base).toString()`, or None when the constructor throws. */
  type Resolver = (string, string) -> Option<string>

  /** The test `^https?://` with the `i` flag. */
  predicate HasHttpScheme(s: string) {
    StartsAtIgnoringCase(s, 0, "http://") || StartsAtIgnoringCase(s, 0, "https://")
  }

  /** Resolution against `base`, falling back to the input when the constructor throws. */
  function ResolveOrKeep(resolve: Resolver, path: string, base: string): string {
    match resolve(path, base)
    case Some(u) => u
    case None => path
  }

  /** `toAbsoluteUrl` of the vidmoly adapter: no special case for `//`. */
  function VidmolyAbsolute(resolve: Resolver, path: string, base: string): (r: string)
    ensures path == [] ==> r == path
    ensures HasHttpScheme(path) ==> r == path
    ensures resolve(path, base).None? ==> r == path
    ensures path != [] && !HasHttpScheme(path) && resolve(path, base).Some? ==> r == resolve(path, base).value
    ensures r == path || resolve(path, base) == Some(r)
  {
    if path == [] then path
    else if HasHttpScheme(path) then path
    else ResolveOrKeep(resolve, path, base)
  }

  /** `toAbsoluteUrl` of the kimcartoon adapter: a protocol-relative `//host/p` becomes `https://host/p`. */
  function KimcartoonAbsolute(resolve: Resolver, path: string, base: string): (r: string)
    ensures path == [] ==> r == path
    ensures HasHttpScheme(path) ==> r == path
    ensures !HasHttpScheme(path) && StartsAt(path, 0, "//") ==> r == "https:" + path
    ensures !StartsAt(path, 0, "//") && resolve(path, base).None? ==> r == path
    ensures path != [] && !HasHttpScheme(path) && !StartsAt(path, 0, "//") && resolve(path, base).Some? ==>
      r == resolve(path, base).value
    ensures r == path || r == "https:" + path || resolve(path, base) == Some(r)
  {
    if path == [] then path
    else if HasHttpScheme(path) then path
    else if StartsAt(path, 0, "//") then "https:" + path
    else ResolveOrKeep(resolve, path, base)
  }

  /**
    Resolving an already resolved URL against the same base gives it back:
    the WHATWG serialisation of an absolute URL parses to itself.
  */
  ghost predicate StableOn(resolve: Resolver, base: string) {
    forall p :: resolve(p, base).Some? ==> resolve(resolve(p, base).value, base) == resolve(p, base)
  }

  /** A resolved URL always carries a scheme, so it never starts with `//`. */
  ghost predicate NeverProtocolRelative(resolve: Resolver, base: string) {
    forall p :: resolve(p, base).Some? ==> !StartsAt(resolve(p, base).value, 0, "//")
  }

  /** Making a URL absolute twice changes nothing more than making it absolute once. */
  lemma VidmolyAbsoluteIdempotent(resolve: Resolver, path: string, base: string)
    requires StableOn(resolve, base)
    ensures VidmolyAbsolute(resolve, VidmolyAbsolute(resolve, path, base), base) == VidmolyAbsolute(resolve, path, base)
  {
  }

  /** The same for the kimcartoon helper: a protocol-relative URL is already `https:` after one step. */
  lemma KimcartoonAbsoluteIdempotent(resolve: Resolver, path: string, base: string)
    requires StableOn(resolve, base) && NeverProtocolRelative(resolve, base)
    ensures KimcartoonAbsolute(resolve, KimcartoonAbsolute(resolve, path, base), base) == KimcartoonAbsolute(resolve, path, base)
  {
    if !HasHttpScheme(path) && path != [] && StartsAt(path, 0, "//") {
      var r := "https:" + path;
      assert StartsAtIgnoringCase(r, 0, "https://") by {
        assert r[..6] == "https:" && r[6..8] == "//";
      }
    }
  }
}
