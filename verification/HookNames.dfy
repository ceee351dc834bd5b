/** The names that hooks may have: the pattern of the request model and of the
    hooks table, segment by segment. */
module HookNames {
  import opened Tables
  import opened Text

  predicate TailChar(c: char) {
    'a' <= c <= 'z' || '0' <= c <= '9' || c == '_'
  }

  predicate Segment(s: string) {
    s != "" && 'a' <= s[0] <= 'z' && forall i :: 0 <= i < |s| ==> TailChar(s[i])
  }

  /** The rest of a name, from inside a segment on. */
  predicate NameTail(s: string) {
    && (forall i :: 0 <= i < |s| ==> TailChar(s[i]) || s[i] == '.')
    && (forall i :: 0 <= i < |s| && s[i] == '.' ==> i + 1 < |s| && IsLower(s[i + 1]))
  }

  predicate TailPieces(pieces: seq<string>) {
    && pieces != [] && (forall i :: 0 <= i < |pieces[0]| ==> TailChar(pieces[0][i]))
    && forall i :: 1 <= i < |pieces| ==> Segment(pieces[i])
  }

  lemma {:induction false} SplitHead(s: string)
    ensures if s == [] || s[0] == '.' then Split(s, '.')[0] == [] else Split(s, '.')[0] != [] && Split(s, '.')[0][0] == s[0]
  {
  }

  lemma NameTailSteps(c: char, s: string)
    ensures c != '.' ==> (NameTail([c] + s) <==> TailChar(c) && NameTail(s))
    ensures c == '.' ==> (NameTail([c] + s) <==> s != [] && IsLower(s[0]) && NameTail(s))
  {
    var t := [c] + s;
    assert t[1..] == s && t[0] == c && (s != [] ==> t[1] == s[0]);
    assert forall i :: 0 <= i < |s| ==> t[i + 1] == s[i];
    if NameTail(t) {
      forall i | 0 <= i < |s| ensures TailChar(s[i]) || s[i] == '.' { assert t[i + 1] == s[i]; }
      forall i | 0 <= i < |s| && s[i] == '.' ensures i + 1 < |s| && IsLower(s[i + 1]) { assert t[i + 1] == '.'; }
    }
    if NameTail(s) {
      forall i | 1 <= i < |t| ensures TailChar(t[i]) || t[i] == '.' { assert t[i] == s[i - 1]; }
      forall i | 1 <= i < |t| && t[i] == '.' ensures i + 1 < |t| && IsLower(t[i + 1]) { assert s[i - 1] == '.'; }
    }
  }

  lemma SegmentsAreTail(pieces: seq<string>)
    requires pieces != []
    ensures (forall i :: 0 <= i < |pieces| ==> Segment(pieces[i]))
      <==> TailPieces(pieces) && pieces[0] != [] && IsLower(pieces[0][0])
  {
    assert Segment(pieces[0]) <==>
      pieces[0] != [] && IsLower(pieces[0][0]) && forall i :: 0 <= i < |pieces[0]| ==> TailChar(pieces[0][i]);
  }

  lemma ExtendedHead(c: char, pieces: seq<string>)
    requires pieces != []
    ensures TailPieces([[c] + pieces[0]] + pieces[1..]) <==> TailChar(c) && TailPieces(pieces)
  {
    var head, all := [c] + pieces[0], [[c] + pieces[0]] + pieces[1..];
    assert head[0] == c && head[1..] == pieces[0];
    assert (forall i :: 0 <= i < |head| ==> TailChar(head[i]))
      <==> TailChar(c) && forall i :: 0 <= i < |pieces[0]| ==> TailChar(pieces[0][i]) by {
      assert forall i :: 0 <= i < |pieces[0]| ==> head[i + 1] == pieces[0][i];
    }
    assert forall i :: 1 <= i < |pieces| ==> all[i] == pieces[i];
  }

  lemma {:induction false} NameTailSplits(s: string)
    ensures NameTail(s) <==> TailPieces(Split(s, '.'))
  {
    if s != [] {
      NameTailSplits(s[1..]);
      NameTailSteps(s[0], s[1..]);
      assert s == [s[0]] + s[1..];
      SplitHead(s[1..]);
      var rest := Split(s[1..], '.');
      if s[0] == '.' {
        SegmentsAreTail(rest);
        assert forall i :: 1 <= i < |[[]] + rest| ==> ([[]] + rest)[i] == rest[i - 1];
        assert forall i :: 0 <= i < |rest| ==> ([[]] + rest)[i + 1] == rest[i];
      } else {
        ExtendedHead(s[0], rest);
      }
    }
  }

  /** A hook name is at most 128 characters of segments between dots, each of them
      a letter with letters, digits and underscores behind it. */
  lemma HookNameMeaning(s: string)
    ensures IsHookName(s) <==> |s| <= 128 && forall i :: 0 <= i < |Split(s, '.')| ==> Segment(Split(s, '.')[i])
  {
    NameTailSplits(s);
    SplitHead(s);
    SegmentsAreTail(Split(s, '.'));
    assert IsHookName(s) <==> 0 < |s| <= 128 && IsLower(s[0]) && NameTail(s);
  }
}
