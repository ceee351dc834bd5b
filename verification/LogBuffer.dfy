/** dataplane/internal/sandbox/extismrt/logbuf.go: one call's log lines, up to
    a line and a byte cap. */
module LogBuffer {
  import opened Utf8

  datatype Level = Trace | Debug | Info | Warn | Error

  /** TRUNCATED stands for the marker text. */
  datatype Text = Message(bytes: Bytes) | Truncated

  datatype Line = Line(level: Level, text: Text)

  const MARKER := Line(Warn, Truncated)

  datatype Entry = Entry(level: Level, msg: Bytes)

  datatype Log = Log(lines: seq<Line>, bytes: nat, truncated: bool)

  const EMPTY_LOG := Log([], 0, false)

  function Shown(e: Entry): Line {
    Line(e.level, Message(e.msg))
  }

  /** What of a message fits into the room left. */
  function CutTo(msg: Bytes, room: int): Bytes
    requires room < |msg|
  {
    if room <= 0 then [] else msg[..Cut(msg, room)]
  }

  class Buffer {
    const maxBytes: nat
    const maxLines: nat
    var lines: seq<Line>
    var bytes: nat
    var truncated: bool

    constructor (maxBytes: nat, maxLines: nat)
      ensures this.maxBytes == maxBytes && this.maxLines == maxLines && Abs() == EMPTY_LOG
    {
      this.maxBytes, this.maxLines := maxBytes, maxLines;
      lines, bytes, truncated := [], 0, false;
    }

    ghost function Abs(): Log
      reads this
    {
      Log(lines, bytes, truncated)
    }

    method Add(level: Level, msg: Bytes)
      modifies this
      ensures Abs() == Added(maxBytes, maxLines, old(Abs()), Entry(level, msg))
      ensures old(truncated) ==> Abs() == old(Abs())
      ensures !old(truncated) ==>
        var room, marker := maxBytes - old(bytes), Line(Warn, Truncated);
        if old(|lines|) >= maxLines then Abs() == Log(old(lines) + [marker], old(bytes), true)
        else if |msg| <= room then Abs() == Log(old(lines) + [Line(level, Message(msg))], old(bytes) + |msg|, false)
        else if room <= 0 || Cut(msg, room) == 0 then Abs() == Log(old(lines) + [marker], old(bytes), true)
        else Abs() == Log(old(lines) + [Line(level, Message(msg[..Cut(msg, room)])), marker], old(bytes), true)
    {
      if truncated {
        return;
      }
      if |lines| >= maxLines {
        Stop();
        return;
      }
      var room := maxBytes - bytes;
      if |msg| > room {
        var cut := CutUtf8(msg, room);
        if cut != [] {
          lines := lines + [Line(level, Message(cut))];
        }
        Stop();
        return;
      }
      bytes := bytes + |msg|;
      lines := lines + [Line(level, Message(msg))];
    }

    method Stop()
      modifies this
      ensures Abs() == Log(old(lines) + [MARKER], old(bytes), true)
    {
      truncated := true;
      lines := lines + [MARKER];
    }

    method Reset()
      modifies this
      ensures Abs() == EMPTY_LOG
    {
      lines, bytes, truncated := [], 0, false;
    }

    method Take() returns (taken: seq<Line>)
      modifies this
      ensures taken == old(lines) && Abs() == EMPTY_LOG
    {
      taken := lines;
      Reset();
    }

    /** One whole call: every message added, then everything taken. */
    method Collect(entries: seq<Entry>) returns (taken: seq<Line>)
      requires Abs() == EMPTY_LOG
      modifies this
      ensures taken == Collected(maxBytes, maxLines, entries) && Abs() == EMPTY_LOG
    {
      for i := 0 to |entries|
        invariant Abs() == AddedAll(maxBytes, maxLines, entries[..i])
      {
        assert entries[..i + 1][..i] == entries[..i];
        Add(entries[i].level, entries[i].msg);
      }
      assert entries[..|entries|] == entries;
      FirstOverflow(maxBytes, maxLines, entries);
      taken := Take();
    }
  }

  function Added(maxBytes: nat, maxLines: nat, b: Log, e: Entry): Log {
    if b.truncated then b
    else if |b.lines| >= maxLines then Log(b.lines + [MARKER], b.bytes, true)
    else if |e.msg| > maxBytes - b.bytes then
      var cut := CutTo(e.msg, maxBytes - b.bytes);
      Log(b.lines + (if cut != [] then [Line(e.level, Message(cut))] else []) + [MARKER], b.bytes, true)
    else Log(b.lines + [Shown(e)], b.bytes + |e.msg|, false)
  }

  function AddedAll(maxBytes: nat, maxLines: nat, entries: seq<Entry>): Log {
    if entries == [] then EMPTY_LOG
    else
      var n := |entries| - 1;
      Added(maxBytes, maxLines, AddedAll(maxBytes, maxLines, entries[..n]), entries[n])
  }

  // ------------------------------------------- what a call's log must hold

  function TotalBytes(entries: seq<Entry>): nat {
    if entries == [] then 0 else TotalBytes(entries[..|entries| - 1]) + |entries[|entries| - 1].msg|
  }

  function ShownAll(entries: seq<Entry>): seq<Line> {
    seq(|entries|, i requires 0 <= i < |entries| => Shown(entries[i]))
  }

  predicate Fits(maxBytes: nat, maxLines: nat, entries: seq<Entry>) {
    |entries| <= maxLines && TotalBytes(entries) <= maxBytes
  }

  /** How many messages fit completely: the longest prefix within both caps. */
  function FitCount(maxBytes: nat, maxLines: nat, entries: seq<Entry>): (k: nat)
    ensures k <= |entries|
    ensures Fits(maxBytes, maxLines, entries[..k])
  {
    if Fits(maxBytes, maxLines, entries) then assert entries[..|entries|] == entries; |entries|
    else
      var k := FitCount(maxBytes, maxLines, entries[..|entries| - 1]);
      assert entries[..|entries| - 1][..k] == entries[..k];
      k
  }

  /** The independent description: everything, if it fits; otherwise the
      messages before the first that does not fit, what can be cut from that
      one if only its bytes were too many, and one marker. */
  function Collected(maxBytes: nat, maxLines: nat, entries: seq<Entry>): seq<Line> {
    if Fits(maxBytes, maxLines, entries) then ShownAll(entries)
    else
      var k := FitCount(maxBytes, maxLines, entries);
      ShownAll(entries[..k]) + Remainder(maxBytes, maxLines, entries, k) + [MARKER]
  }

  function Remainder(maxBytes: nat, maxLines: nat, entries: seq<Entry>, k: nat): seq<Line>
    requires k <= |entries|
  {
    var room := maxBytes - TotalBytes(entries[..k]);
    if k == |entries| || k >= maxLines || |entries[k].msg| <= room then []
    else
      var cut := CutTo(entries[k].msg, room);
      if cut == [] then [] else [Line(entries[k].level, Message(cut))]
  }

  /** Prefixes of what fits fit. */
  lemma FitsShrinks(maxBytes: nat, maxLines: nat, entries: seq<Entry>, n: nat)
    requires Fits(maxBytes, maxLines, entries) && n <= |entries|
    ensures Fits(maxBytes, maxLines, entries[..n])
  {
    TotalShrinks(entries, n);
  }

  lemma {:induction false} TotalShrinks(entries: seq<Entry>, n: nat)
    requires n <= |entries|
    ensures TotalBytes(entries[..n]) <= TotalBytes(entries)
  {
    if n < |entries| {
      TotalShrinks(entries[..|entries| - 1], n);
      assert entries[..|entries| - 1][..n] == entries[..n];
    } else {
      assert entries[..n] == entries;
    }
  }

  /** FitCount stops at the first message that does not fit. */
  lemma {:induction false} FitCountIsMaximal(maxBytes: nat, maxLines: nat, entries: seq<Entry>, n: nat)
    requires n <= |entries|
    ensures Fits(maxBytes, maxLines, entries[..n]) <==> n <= FitCount(maxBytes, maxLines, entries)
    decreases |entries|
  {
    if Fits(maxBytes, maxLines, entries) {
      FitsShrinks(maxBytes, maxLines, entries, n);
    } else if n == |entries| {
      assert entries[..n] == entries;
    } else {
      var shorter := entries[..|entries| - 1];
      FitCountIsMaximal(maxBytes, maxLines, shorter, n);
      assert shorter[..n] == entries[..n];
    }
  }

  /** The buffer's lines are exactly that description, after any sequence of
      messages; it is truncated exactly when they do not all fit. */
  lemma {:induction false} FirstOverflow(maxBytes: nat, maxLines: nat, entries: seq<Entry>)
    ensures var b := AddedAll(maxBytes, maxLines, entries);
      && b.lines == Collected(maxBytes, maxLines, entries)
      && (b.truncated <==> !Fits(maxBytes, maxLines, entries))
      && (!b.truncated ==> b.bytes == TotalBytes(entries) && |b.lines| == |entries|)
  {
    if entries != [] {
      var n := |entries| - 1;
      var before := entries[..n];
      FirstOverflow(maxBytes, maxLines, before);
      assert entries == before + [entries[n]];
      if Fits(maxBytes, maxLines, entries) {
        FitsShrinks(maxBytes, maxLines, entries, n);
        assert ShownAll(entries) == ShownAll(before) + [Shown(entries[n])];
      } else if Fits(maxBytes, maxLines, before) {
        assert before[..n] == before;
        assert FitCount(maxBytes, maxLines, entries) == n;
      } else {
        StaysTruncated(maxBytes, maxLines, entries);
      }
    }
  }

  /** Messages after the first overflow change nothing. */
  lemma StaysTruncated(maxBytes: nat, maxLines: nat, entries: seq<Entry>)
    requires entries != [] && !Fits(maxBytes, maxLines, entries[..|entries| - 1])
    ensures Collected(maxBytes, maxLines, entries) == Collected(maxBytes, maxLines, entries[..|entries| - 1])
  {
    var n := |entries| - 1;
    var before := entries[..n];
    var k := FitCount(maxBytes, maxLines, before);
    FitsNotLonger(maxBytes, maxLines, entries);
    assert before[..n] == before;
    assert k < n;
    assert before[..k] == entries[..k];
  }

  lemma FitsNotLonger(maxBytes: nat, maxLines: nat, entries: seq<Entry>)
    requires entries != [] && !Fits(maxBytes, maxLines, entries[..|entries| - 1])
    ensures !Fits(maxBytes, maxLines, entries)
  {
  }

  // ---------------------------------------------------------------- bounds

  function MessageBytes(lines: seq<Line>): nat {
    if lines == [] then 0
    else
      var last := lines[|lines| - 1].text;
      MessageBytes(lines[..|lines| - 1]) + if last.Message? then |last.bytes| else 0
  }

  lemma {:induction false} MessageBytesAppend(lines: seq<Line>, more: Line)
    ensures MessageBytes(lines + [more]) == MessageBytes(lines) + if more.text.Message? then |more.text.bytes| else 0
  {
  }

  lemma {:induction false} ShownBytes(entries: seq<Entry>)
    ensures MessageBytes(ShownAll(entries)) == TotalBytes(entries)
  {
    if entries != [] {
      var n := |entries| - 1;
      ShownBytes(entries[..n]);
      assert ShownAll(entries) == ShownAll(entries[..n]) + [Shown(entries[n])];
      MessageBytesAppend(ShownAll(entries[..n]), Shown(entries[n]));
    }
  }

  /** The lines without the marker that truncation puts last. */
  function Kept(maxBytes: nat, maxLines: nat, entries: seq<Entry>): seq<Line> {
    var b := Collected(maxBytes, maxLines, entries);
    if Fits(maxBytes, maxLines, entries) then b else b[..|b| - 1]
  }

  /** Both caps hold for everything but the marker, which is the only one of
      its kind, and last. */
  lemma WithinCaps(maxBytes: nat, maxLines: nat, entries: seq<Entry>)
    ensures var b, kept := Collected(maxBytes, maxLines, entries), Kept(maxBytes, maxLines, entries);
      && b == kept + (if Fits(maxBytes, maxLines, entries) then [] else [MARKER])
      && (forall i :: 0 <= i < |kept| ==> kept[i].text.Message?)
      && |kept| <= maxLines
      && MessageBytes(kept) <= maxBytes
  {
    var k := FitCount(maxBytes, maxLines, entries);
    assert Fits(maxBytes, maxLines, entries) ==> entries[..k] == entries;
    ShownBytes(entries[..k]);
    var shown, rest := ShownAll(entries[..k]), Remainder(maxBytes, maxLines, entries, k);
    if !Fits(maxBytes, maxLines, entries) {
      assert Collected(maxBytes, maxLines, entries) == shown + rest + [MARKER];
      assert Kept(maxBytes, maxLines, entries) == shown + rest;
      if rest != [] {
        MessageBytesAppend(shown, rest[0]);
        assert rest == [rest[0]];
      } else {
        assert shown + rest == shown;
      }
    }
  }

  /** Logs of valid UTF-8 stay valid UTF-8, cut or not. */
  lemma KeptStaysValid(maxBytes: nat, maxLines: nat, entries: seq<Entry>, i: nat)
    requires forall j :: 0 <= j < |entries| ==> ValidUtf8(entries[j].msg)
    requires i < |Kept(maxBytes, maxLines, entries)|
    ensures Kept(maxBytes, maxLines, entries)[i].text.Message?
    ensures ValidUtf8(Kept(maxBytes, maxLines, entries)[i].text.bytes)
  {
    WithinCaps(maxBytes, maxLines, entries);
    var k := FitCount(maxBytes, maxLines, entries);
    var rest := Remainder(maxBytes, maxLines, entries, k);
    if !Fits(maxBytes, maxLines, entries) && rest != [] {
      var room := maxBytes - TotalBytes(entries[..k]);
      CutIsLongestValid(entries[k].msg, room);
    }
  }
}
