/**
 * The two request-normalising middlewares of Laravel's default global
 * stack, which run before any form request sees the body: `TrimStrings`
 * trims every string attribute, then `ConvertEmptyStringsToNull` turns
 * every empty string into null.
 */
module Middleware {
  import opened Tasks

  /** The characters PHP's `trim` removes. */
  predicate Space(ch: char)
  {
    ch in {' ', '\t', '\n', '\r', '\0', '\U{000B}'}
  }

  /** A string `trim` empties. */
  predicate Blank(s: string)
  {
    forall i :: 0 <= i < |s| ==> Space(s[i])
  }

  /** `s` without its leading spaces. */
  function TrimStart(s: string): (r: string)
    ensures |r| <= |s| && r == s[|s| - |r|..]
    ensures Blank(s[..|s| - |r|])
    ensures r == [] || !Space(r[0])
    decreases |s|
  {
    if s != [] && Space(s[0]) then
      var r := TrimStart(s[1..]);
      assert s[..|s| - |r|] == [s[0]] + s[1..][..|s[1..]| - |r|];
      r
    else s
  }

  /** `s` without its trailing spaces. */
  function TrimEnd(s: string): (r: string)
    ensures |r| <= |s| && r == s[..|r|]
    ensures Blank(s[|r|..])
    ensures r == [] || !Space(r[|r| - 1])
    decreases |s|
  {
    if s != [] && Space(s[|s| - 1]) then
      var r := TrimEnd(s[..|s| - 1]);
      assert s[|r|..] == s[..|s| - 1][|r|..] + [s[|s| - 1]];
      r
    else s
  }

  /**
   * `trim($s)`: the part of `s` left once a blank prefix and a blank
   * suffix are cut off, which neither starts nor ends with a space.
   */
  function Trim(s: string): (r: string)
    ensures |r| <= |s|
    ensures exists i :: 0 <= i <= |s| - |r| && r == s[i..i + |r|] && Blank(s[..i]) && Blank(s[i + |r|..])
    ensures r == [] || (!Space(r[0]) && !Space(r[|r| - 1]))
  {
    var t := TrimStart(s);
    var r := TrimEnd(t);
    var i := |s| - |t|;
    assert r == s[i..i + |r|];
    assert s[i + |r|..] == t[|r|..];
    r
  }

  /** A string is trimmed to nothing exactly when it is blank. */
  lemma TrimEmpty(s: string)
    ensures Trim(s) == [] <==> Blank(s)
  {
    var r := Trim(s);
    var i :| 0 <= i <= |s| - |r| && r == s[i..i + |r|] && Blank(s[..i]) && Blank(s[i + |r|..]);
    if r == [] {
      forall k | 0 <= k < |s|
        ensures Space(s[k])
      {
        if k < i {
          assert s[k] == s[..i][k];
        } else {
          assert s[k] == s[i..][k - i];
        }
      }
    } else {
      assert r[0] == s[i];
    }
  }

  /** Trimming twice changes nothing more. */
  lemma TrimIdempotent(s: string)
    ensures Trim(Trim(s)) == Trim(s)
  {
    var r := Trim(s);
    assert TrimStart(r) == r;
    assert TrimEnd(r) == r;
  }

  /** One attribute after `TrimStrings` and then `ConvertEmptyStringsToNull`. */
  function NormalizeValue(v: Value): (w: Value)
    ensures !v.Str? ==> w == v
    ensures v.Str? ==> (w == Null <==> Blank(v.s))
    ensures v.Str? && !Blank(v.s) ==> w == Str(Trim(v.s))
    ensures w.Str? ==> w.s != [] && !Space(w.s[0]) && !Space(w.s[|w.s| - 1])
  {
    TrimEmpty(if v.Str? then v.s else []);
    if v.Str? then
      var t := Trim(v.s);
      if t == [] then Null else Str(t)
    else v
  }

  /** Normalising a value a second time changes nothing. */
  lemma NormalizeValueIdempotent(v: Value)
    ensures NormalizeValue(NormalizeValue(v)) == NormalizeValue(v)
  {
    if v.Str? && !Blank(v.s) {
      TrimIdempotent(v.s);
      TrimEmpty(Trim(v.s));
    }
  }

  /**
   * A request body after both middlewares: the same attributes, every
   * string trimmed, every empty one null, so no attribute holds a blank
   * string any more.
   */
  function Normalize<K>(p: map<K, Value>): (q: map<K, Value>)
    ensures q.Keys == p.Keys
    ensures forall f :: f in p ==> q[f] == NormalizeValue(p[f])
    ensures forall f :: f in q && q[f].Str? ==> !Blank(q[f].s)
  {
    map f | f in p :: NormalizeValue(p[f])
  }

  /** Normalising a body a second time changes nothing. */
  lemma NormalizeIdempotent<K>(p: map<K, Value>)
    ensures Normalize(Normalize(p)) == Normalize(p)
  {
    forall f | f in p
      ensures Normalize(Normalize(p))[f] == Normalize(p)[f]
    {
      NormalizeValueIdempotent(p[f]);
    }
  }
}
