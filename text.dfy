/**
  JavaScript string helpers that the core relies on: the white-space class shared by
  `String.prototype.trim` and the regular-expression escape `\s`, `trim` itself, and
  substring containment.
 */
module JsText {

  /**
    ECMAScript WhiteSpace and LineTerminator code points, what `trim` strips and `\s`
    matches: tab to carriage return, space, no-break space, ogham space mark, the
    en quad to hair space block, line and paragraph separators, narrow no-break space,
    medium mathematical space, ideographic space and the byte order mark.
   */
  function IsSpace(c: char): (b: bool)
    ensures c == ' ' || c == '\t' || c == '\n' || c == '\r' ==> b
    ensures '!' <= c <= '~' ==> !b
  {
    var n := c as int;
    || 0x09 <= n <= 0x0D || n == 0x20 || n == 0xA0 || n == 0x1680
    || 0x2000 <= n <= 0x200A || n == 0x2028 || n == 0x2029 || n == 0x202F || n == 0x205F
    || n == 0x3000 || n == 0xFEFF
  }

  /** `s` with its leading white space removed */
  function TrimStart(s: string): (r: string)
    ensures |r| <= |s| && r == s[|s| - |r|..]
    ensures forall k :: 0 <= k < |s| - |r| ==> IsSpace(s[k])
    ensures r != [] ==> !IsSpace(r[0])
  {
    if s != [] && IsSpace(s[0]) then TrimStart(s[1..]) else s
  }

  /** `s` with its trailing white space removed */
  function TrimEnd(s: string): (r: string)
    ensures |r| <= |s| && r == s[..|r|]
    ensures forall k :: |r| <= k < |s| ==> IsSpace(s[k])
    ensures r != [] ==> !IsSpace(r[|r| - 1])
  {
    if s != [] && IsSpace(s[|s| - 1]) then TrimEnd(s[..|s| - 1]) else s
  }

  /** `r` is the slice of `s` that starts at `i`, with only white space before and after it */
  ghost predicate TrimmedAt(s: string, r: string, i: int) {
    && 0 <= i && i + |r| <= |s|
    && r == s[i..i + |r|]
    && (forall k :: 0 <= k < i ==> IsSpace(s[k]))
    && (forall k :: i + |r| <= k < |s| ==> IsSpace(s[k]))
  }

  /** `r` neither starts nor ends with white space */
  predicate Unpadded(r: string) {
    r != [] ==> !IsSpace(r[0]) && !IsSpace(r[|r| - 1])
  }

  /** `String.prototype.trim` */
  function Trim(s: string): (r: string)
    ensures exists i :: TrimmedAt(s, r, i)
    ensures Unpadded(r)
    ensures r == [] <==> forall k :: 0 <= k < |s| ==> IsSpace(s[k])
  {
    TrimSliced(s);
    TrimEnds(s);
    TrimEmpty(s);
    TrimEnd(TrimStart(s))
  }

  lemma TrimSliced(s: string)
    ensures exists i :: TrimmedAt(s, TrimEnd(TrimStart(s)), i)
  {
    TrimSlice(s);
  }

  lemma TrimEnds(s: string)
    ensures Unpadded(TrimEnd(TrimStart(s)))
  {
    var t := TrimStart(s);
    var r := TrimEnd(t);
    if r != [] {
      assert r[0] == t[0];
    }
  }

  lemma TrimSlice(s: string)
    ensures TrimmedAt(s, TrimEnd(TrimStart(s)), |s| - |TrimStart(s)|)
  {
    var t := TrimStart(s);
    TrimmedBetween(s, t, TrimEnd(t), |s| - |t|);
  }

  lemma TrimEmpty(s: string)
    ensures TrimEnd(TrimStart(s)) == [] <==> forall k :: 0 <= k < |s| ==> IsSpace(s[k])
  {
    var t := TrimStart(s);
    var r := TrimEnd(t);
    var i := |s| - |t|;
    TrimmedBetween(s, t, r, i);
    if r != [] {
      assert s[i] == r[0] && !IsSpace(s[i]);
    }
  }

  /** Trimming twice is trimming once */
  lemma TrimIdempotent(s: string)
    ensures Trim(Trim(s)) == Trim(s)
  {
    var t := Trim(s);
    assert TrimStart(t) == t;
    assert TrimEnd(t) == t;
  }

  /** Cutting white space off the front and then off the back leaves a slice with white space around it */
  lemma TrimmedBetween(s: string, t: string, r: string, i: int)
    requires 0 <= i <= |s| && t == s[i..]
    requires forall k :: 0 <= k < i ==> IsSpace(s[k])
    requires |r| <= |t| && r == t[..|r|]
    requires forall k :: |r| <= k < |t| ==> IsSpace(t[k])
    ensures TrimmedAt(s, r, i)
  {
    forall k | i + |r| <= k < |s|
      ensures IsSpace(s[k])
    {
      assert s[k] == t[k - i];
    }
  }

  /** `t` occurs in `s` starting at index `i` */
  ghost predicate OccursAt(s: string, t: string, i: int) {
    0 <= i && i + |t| <= |s| && s[i..i + |t|] == t
  }

  /** `s.includes(t)` */
  ghost predicate Contains(s: string, t: string) {
    exists i :: OccursAt(s, t, i)
  }

  /** Whatever is written before `t`, what `t` contains stays contained */
  lemma ContainsAfter(prefix: string, t: string)
    ensures forall e :: Contains(t, e) ==> Contains(prefix + t, e)
  {
    forall e | Contains(t, e)
      ensures Contains(prefix + t, e)
    {
      var i :| OccursAt(t, e, i);
      assert (prefix + t)[|prefix| + i..|prefix| + i + |e|] == t[i..i + |e|];
      assert OccursAt(prefix + t, e, |prefix| + i);
    }
  }

  /** Whatever is written around `t`, the result contains `t` */
  lemma ContainsMiddle(x: string, t: string, y: string)
    ensures Contains(x + t + y, t)
  {
    assert OccursAt(x + t + y, t, |x|);
  }
}
