/** Cutting byte strings without splitting a UTF-8 character: cutUTF8 of
    dataplane/internal/sandbox/extismrt/logbuf.go and truncate of
    dataplane/internal/executor/output.go. */
module Utf8 {

  type Byte = b: int | 0 <= b < 256 witness 0

  type Bytes = seq<Byte>

  // ------------------------------ well-formed UTF-8, section 4 of RFC 3629

  predicate Tail(b: Byte) {
    0x80 <= b <= 0xBF
  }

  /** How many bytes a character with this first byte has; 0 for none. */
  function Announced(b: Byte): nat {
    if b <= 0x7F then 1
    else if 0xC2 <= b <= 0xDF then 2
    else if 0xE0 <= b <= 0xEF then 3
    else if 0xF0 <= b <= 0xF4 then 4
    else 0
  }

  /** The second byte's range, which some first bytes narrow. */
  predicate Second(first: Byte, b: Byte) {
    if first == 0xE0 then 0xA0 <= b <= 0xBF
    else if first == 0xED then 0x80 <= b <= 0x9F
    else if first == 0xF0 then 0x90 <= b <= 0xBF
    else if first == 0xF4 then 0x80 <= b <= 0x8F
    else Tail(b)
  }

  /** The length of the character that s starts with; 0 when it starts with none. */
  function CharLength(s: Bytes): (n: nat)
    ensures n <= |s| && n <= 4
  {
    if s == [] then 0
    else
      var n := Announced(s[0]);
      if n > |s| || (n >= 2 && !Second(s[0], s[1])) || (n >= 3 && !Tail(s[2])) || (n == 4 && !Tail(s[3])) then 0 else n
  }

  predicate ValidUtf8(s: Bytes)
    decreases s
  {
    s == [] || (CharLength(s) > 0 && ValidUtf8(s[CharLength(s)..]))
  }

  /** utf8.RuneStart: not a continuation byte. */
  predicate RuneStart(b: Byte) {
    !(0x80 <= b < 0xC0)
  }

  // ------------------------------------------------------------- the cut

  /** The largest index up to n at which a character may start. */
  function Cut(s: Bytes, n: nat): (k: nat)
    requires n < |s|
    ensures k <= n
    ensures k == 0 || RuneStart(s[k])
    ensures forall j :: k < j <= n ==> !RuneStart(s[j])
  {
    if n == 0 || RuneStart(s[n]) then n else Cut(s, n - 1)
  }

  method CutUtf8(s: Bytes, n: int) returns (t: Bytes)
    requires n < |s|
    ensures t == if n <= 0 then [] else s[..Cut(s, n)]
  {
    if n <= 0 {
      return [];
    }
    var k := n;
    while k > 0 && !RuneStart(s[k])
      invariant 0 <= k <= n
      invariant Cut(s, k) == Cut(s, n)
    {
      k := k - 1;
    }
    t := s[..k];
  }

  method Truncate(s: Bytes, max: nat) returns (t: Bytes)
    ensures t == if |s| <= max then s else s[..Cut(s, max)]
  {
    if |s| <= max {
      return s;
    }
    var cut := max;
    while cut > 0 && !RuneStart(s[cut])
      invariant 0 <= cut <= max
      invariant Cut(s, cut) == Cut(s, max)
    {
      cut := cut - 1;
    }
    t := s[..cut];
  }

  // ------------------------------------------- on valid UTF-8, the cut is best

  /** A character's first byte is no tail, and all its others are. */
  lemma CharShape(s: Bytes)
    requires CharLength(s) > 0
    ensures RuneStart(s[0])
    ensures forall j :: 0 < j < CharLength(s) ==> !RuneStart(s[j])
  {
  }

  /** A prefix keeps a character that it covers and no part of another. */
  lemma PrefixChar(s: Bytes, j: nat)
    requires CharLength(s) > 0 && 0 < j <= |s|
    ensures CharLength(s[..j]) == if j < CharLength(s) then 0 else CharLength(s)
  {
  }

  /** The valid prefixes of a valid text are those that end where a character
      starts, or at the end of the text. */
  lemma {:induction false} Boundaries(s: Bytes, j: nat)
    requires ValidUtf8(s) && j <= |s|
    ensures ValidUtf8(s[..j]) <==> j == |s| || RuneStart(s[j])
    decreases s
  {
    if s == [] {
    } else {
      var c := CharLength(s);
      CharShape(s);
      if j == 0 {
      } else if j < c {
        PrefixChar(s, j);
      } else {
        PrefixChar(s, j);
        Boundaries(s[c..], j - c);
        assert s[..j][c..] == s[c..][..j - c];
      }
    }
  }

  /** No four neighbouring bytes of a valid text are all continuation bytes. */
  lemma {:induction false} NearBoundary(s: Bytes, n: nat)
    requires ValidUtf8(s) && n < |s|
    ensures n - Cut(s, n) <= 3
    decreases s
  {
    var c := CharLength(s);
    CharShape(s);
    if n >= c {
      NearBoundary(s[c..], n - c);
      var k := Cut(s[c..], n - c);
      assert s[c + k] == s[c..][k];
      assert RuneStart(s[c + k]) by {
        if k == 0 { CharShape(s[c..]); }
      }
    }
  }

  /** For valid UTF-8 the cut keeps the longest valid prefix within n bytes,
      gives up at most three bytes, and leaves a valid rest. */
  lemma CutIsLongestValid(s: Bytes, n: nat)
    requires ValidUtf8(s) && n < |s|
    ensures var k := Cut(s, n);
      && ValidUtf8(s[..k]) && (forall j :: k < j <= n ==> !ValidUtf8(s[..j]))
      && n - k <= 3
  {
    var k := Cut(s, n);
    NearBoundary(s, n);
    if k == 0 {
      assert s[..k] == [];
    } else {
      Boundaries(s, k);
    }
    forall j | k < j <= n ensures !ValidUtf8(s[..j]) {
      Boundaries(s, j);
    }
  }

  /** Truncation therefore returns the longest valid prefix that fits. */
  lemma TruncateIsLongestValid(s: Bytes, max: nat, t: Bytes)
    requires ValidUtf8(s) && t == if |s| <= max then s else s[..Cut(s, max)]
    ensures ValidUtf8(t) && t <= s && |t| <= max
    ensures forall u: Bytes :: ValidUtf8(u) && u <= s && |u| <= max ==> |u| <= |t|
    ensures |s| > max ==> max - |t| <= 3
  {
    if |s| > max {
      CutIsLongestValid(s, max);
      forall u: Bytes | ValidUtf8(u) && u <= s && |u| <= max ensures |u| <= |t| {
        assert u == s[..|u|];
      }
    }
  }

  /** On other bytes the loss is unbounded: a run of continuation bytes is
      dropped whole. */
  lemma {:induction false} ContinuationsVanish(s: Bytes, n: nat)
    requires n < |s| && forall j :: 0 <= j < |s| ==> Tail(s[j])
    ensures Cut(s, n) == 0
  {
  }
}
