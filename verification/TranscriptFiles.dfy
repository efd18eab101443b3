/** The writer and reader objects of the transcript, over one shared file. */
module TranscriptFiles {
  import opened Unicode
  import opened Json
  import opened Transcript
  import opened CrashRecovery

  class TranscriptFile {
    var bytes: Bytes

    constructor ()
      ensures bytes == []
    {
      bytes := [];
    }
  }

  /** How `append` ends: normally, or with RuntimeError, UnicodeEncodeError or
      OSError. */
  datatype AppendResult = Appended | WriterClosed | NotEncodable | WriteFailed

  /** How many of `n` bytes the successive `os.write` calls take when the system
      answers `answers`, and whatever is left once it has run out of answers; a
      call that answers 0 or less is the last one. */
  function Taken(answers: seq<int>, n: nat): (taken: nat)
    ensures taken <= n
    decreases |answers|
  {
    if n == 0 then 0
    else if answers == [] then n
    else if answers[0] <= 0 then 0
    else if answers[0] >= n then n
    else answers[0] + Taken(answers[1..], n - answers[0])
  }

  function Sum(ws: seq<int>): int {
    if ws == [] then 0 else ws[0] + Sum(ws[1..])
  }

  /** Call `k` is the first that takes nothing, and by then part of `n` bytes is out. */
  predicate TearsAt(answers: seq<int>, n: nat, k: nat) {
    && 0 < k < |answers| && answers[k] <= 0
    && (forall i | 0 <= i < k :: answers[i] > 0) && Sum(answers[..k]) < n
  }

  predicate Tears(answers: seq<int>, n: nat) {
    exists k: nat | k < |answers| :: TearsAt(answers, n, k)
  }

  /** A line is written in part exactly when the first call to take nothing comes
      after some that took less than all of it. */
  lemma {:induction false} TearsIff(answers: seq<int>, n: nat)
    ensures 0 < Taken(answers, n) < n <==> Tears(answers, n)
    decreases |answers|
  {
    if answers != [] && 0 < answers[0] < n {
      var rest, left := answers[1..], n - answers[0];
      TearsIff(rest, left);
      forall k: nat | k < |rest|
        ensures TearsAt(rest, left, k) ==> TearsAt(answers, n, k + 1)
        ensures TearsAt(answers, n, k + 1) && k > 0 ==> TearsAt(rest, left, k)
      {
        assert answers[..k + 1][1..] == rest[..k];
        assert rest[k] == answers[k + 1];
        assert forall i | 0 <= i < k :: rest[i] == answers[i + 1];
      }
      NothingTaken(rest, left);
      if rest != [] && rest[0] <= 0 {
        assert answers[..1][1..] == [];
        assert TearsAt(answers, n, 1);
      }
      if k: nat :| k < |answers| && TearsAt(answers, n, k) {
        assert k == 1 ==> rest[0] <= 0;
        assert k > 1 ==> TearsAt(rest, left, k - 1);
      }
    } else if answers != [] && answers[0] >= n {
      SumGrows(answers);
    }
  }

  lemma NothingTaken(answers: seq<int>, n: nat)
    requires n > 0
    ensures Taken(answers, n) == 0 <==> answers != [] && answers[0] <= 0
  {
  }

  /** A first positive answer is a lower bound of every positive prefix. */
  lemma SumGrows(answers: seq<int>)
    requires answers != []
    ensures forall k | 0 < k <= |answers| && (forall i | 0 <= i < k :: answers[i] > 0) ::
      Sum(answers[..k]) >= answers[0]
  {
    forall k | 0 < k <= |answers| && (forall i | 0 <= i < k :: answers[i] > 0)
      ensures Sum(answers[..k]) >= answers[0]
    {
      SumOfPositives(answers[..k][1..]);
    }
  }

  lemma {:induction false} SumOfPositives(ws: seq<int>)
    requires forall i | 0 <= i < |ws| :: ws[i] > 0
    ensures Sum(ws) >= 0
  {
    if ws != [] {
      SumOfPositives(ws[1..]);
    }
  }

  /** One byte taken, then none: every message can be torn. */
  lemma WriteCanTear(m: Message)
    requires Recordable(m)
    ensures 0 < Taken([1, 0], |LineBytes(m)|) < |LineBytes(m)|
  {
    hide LineBytes, Serialize;
    LineShape(m);
    assert [1, 0][1..] == [0];
  }

  lemma TakenStep(answers: seq<int>, i: nat, n: nat)
    requires i <= |answers|
    ensures Taken(answers[i..], n) ==
      if n == 0 then 0
      else if i == |answers| then n
      else if answers[i] <= 0 then 0
      else if answers[i] >= n then n
      else answers[i] + Taken(answers[i + 1..], n - answers[i])
    ensures Taken([], n) == n
  {
    assert i < |answers| ==> answers[i..][1..] == answers[i + 1..];
  }

  lemma WholeOrNothing(before: Bytes, line: Bytes, n: nat)
    requires n <= |line|
    ensures before + line[..n] == before || before + line[..n] == before + line <==> n == 0 || n == |line|
    ensures n == |line| ==> line[..n] == line
  {
    assert |before + line[..n]| == |before| + n;
  }

  class TranscriptWriter {
    const file: TranscriptFile
    var closed: bool

    constructor (file: TranscriptFile)
      ensures this.file == file && !closed
    {
      this.file := file;
      closed := false;
    }

    /** `answers` are the return values of the successive `os.write` calls; after
        the last one the system takes whatever is left. */
    method Append(m: Message, answers: seq<int>) returns (r: AppendResult)
      modifies file
      ensures r == WriterClosed <==> closed
      ensures r == NotEncodable <==> !closed && !AllScalar(Serialize(m))
      ensures r == WriterClosed || r == NotEncodable ==> file.bytes == old(file.bytes)
      ensures r == Appended || r == WriteFailed ==>
        var n := Taken(answers, |LineBytes(m)|);
        && file.bytes == old(file.bytes) + LineBytes(m)[..n]
        && (r == Appended <==> n == |LineBytes(m)|)
        && (file.bytes == old(file.bytes) || file.bytes == old(file.bytes) + LineBytes(m)
            <==> !Tears(answers, |LineBytes(m)|))
    {
      hide Serialize, Encode, Tears, Taken;
      if closed {
        return WriterClosed;
      }
      var line := Serialize(m) + [LF];
      if !(forall i | 0 <= i < |line| :: IsScalar(line[i])) {
        NotScalar(Serialize(m));
        return NotEncodable;
      }
      assert AllScalar(Serialize(m)) by {
        assert forall i | 0 <= i < |Serialize(m)| :: line[i] == Serialize(m)[i];
      }
      var encoded := Encode(line);
      TearsIff(answers, |encoded|);
      var view := encoded;
      var i := 0;
      ghost var done := 0;
      assert answers[0..] == answers && encoded[0..] == encoded;
      while view != []
        invariant 0 <= i <= |answers| && done <= |encoded|
        invariant view == encoded[done..]
        invariant file.bytes == old(file.bytes) + encoded[..done]
        invariant done + Taken(answers[i..], |view|) == Taken(answers, |encoded|)
        decreases |view|
      {
        TakenStep(answers, i, |view|);
        var written := if i < |answers| then answers[i] else |view|;
        if written <= 0 {
          WholeOrNothing(old(file.bytes), encoded, done);
          return WriteFailed;
        }
        var n := if written < |view| then written else |view|;
        file.bytes := file.bytes + view[..n];
        view := view[n..];
        assert encoded[..done] + encoded[done..][..n] == encoded[..done + n];
        done := done + n;
        i := if i < |answers| then i + 1 else i;
      }
      TakenStep(answers, i, 0);
      WholeOrNothing(old(file.bytes), encoded, done);
      return Appended;
    }

    method Close()
      modifies this
      ensures closed
    {
      if closed {
        return;
      }
      closed := true;
    }
  }

  lemma NotScalar(s: Text)
    requires !(forall i | 0 <= i < |s + [LF]| :: IsScalar((s + [LF])[i]))
    ensures !AllScalar(s)
  {
    var i :| 0 <= i < |s + [LF]| && !IsScalar((s + [LF])[i]);
    assert s[i] in s;
  }

  predicate HasUnparseable(lines: seq<Bytes>) {
    exists i | 0 <= i < |lines| :: ReadLine(lines[i]) == Unparseable
  }

  class TranscriptReader {
    const file: TranscriptFile?
    var loggedPartial: bool
    var warnings: nat

    constructor (file: TranscriptFile?)
      ensures this.file == file && !loggedPartial && warnings == 0
    {
      this.file := file;
      loggedPartial, warnings := false, 0;
    }

    /** Every parseable line; one warning per reader, however many lines are bad.
        A missing file is an empty one. */
    method ReadAll() returns (entries: seq<Json>)
      modifies this
      ensures file == null ==> entries == [] && loggedPartial == old(loggedPartial)
      ensures file != null ==> entries == ReadBytes(file.bytes)
      ensures file != null ==> loggedPartial == (old(loggedPartial) || HasUnparseable(SplitLines(file.bytes)))
      ensures warnings == old(warnings) + if loggedPartial && !old(loggedPartial) then 1 else 0
    {
      hide ReadLine, SplitLines, Entries, HasUnparseable;
      entries := [];
      if file == null {
        return;
      }
      NoLines();
      var lines := SplitLines(file.bytes);
      var i := 0;
      while i < |lines|
        invariant 0 <= i <= |lines|
        invariant entries + Entries(lines[i..]) == Entries(lines)
        invariant loggedPartial == (old(loggedPartial) || HasUnparseable(lines[..i]))
        invariant warnings == old(warnings) + if loggedPartial && !old(loggedPartial) then 1 else 0
      {
        EntriesStep(lines, i);
        UnparseableStep(lines, i);
        ghost var rest := Entries(lines[i + 1..]);
        assert [] + rest == rest;
        match ReadLine(lines[i]) {
          case Blank =>
          case Entry(v) =>
            entries := entries + [v];
          case Unparseable =>
            if !loggedPartial {
              warnings := warnings + 1;
              loggedPartial := true;
            }
        }
        i := i + 1;
      }
      assert lines[..i] == lines && lines[i..] == [] && entries + [] == entries;
    }
  }

  lemma NoLines()
    ensures Entries([]) == [] && !HasUnparseable([])
  {
  }

  lemma EntriesStep(lines: seq<Bytes>, i: nat)
    requires i < |lines|
    ensures Entries(lines[i..])
         == (match ReadLine(lines[i]) case Entry(v) => [v] case _ => []) + Entries(lines[i + 1..])
  {
    hide ReadLine;
    assert lines[i..][1..] == lines[i + 1..];
  }

  lemma UnparseableStep(lines: seq<Bytes>, i: nat)
    requires i < |lines|
    ensures HasUnparseable(lines[..i + 1]) == (HasUnparseable(lines[..i]) || ReadLine(lines[i]) == Unparseable)
  {
    hide ReadLine;
    var t := lines[..i + 1];
    assert t[i] == lines[i] && forall j | 0 <= j < i :: t[j] == lines[..i][j];
  }

  /******* A writer and a reader on one file *******/

  /** What one append comes to. */
  function AppendOf(m: Message, answers: seq<int>): Append {
    var n := Taken(answers, |LineBytes(m)|);
    if n == |LineBytes(m)| then Whole(m) else Torn(m, n)
  }

  function HistoryOf(ms: seq<Message>, answers: seq<seq<int>>): (h: seq<Append>)
    requires |answers| == |ms|
    ensures |h| == |ms| && forall i | 0 <= i < |h| :: h[i] == AppendOf(ms[i], answers[i])
  {
    seq(|ms|, i requires 0 <= i < |ms| => AppendOf(ms[i], answers[i]))
  }

  lemma WrittenIsTaken(m: Message, answers: seq<int>)
    requires Recordable(m)
    ensures GoodAppend(AppendOf(m, answers)) && AllScalar(Serialize(m))
    ensures Written(AppendOf(m, answers)) == LineBytes(m)[..Taken(answers, |LineBytes(m)|)]
  {
    hide LineBytes, Serialize, Recordable;
    SerializedShape(m);
    assert Serialize(m) == (Serialize(m) + [LF])[..|Serialize(m)|];
    assert LineBytes(m)[..|LineBytes(m)|] == LineBytes(m);
  }

  /** A run of appends, whatever the system answers: the file is their history. */
  method AppendAll(writer: TranscriptWriter, ms: seq<Message>, answers: seq<seq<int>>)
    returns (results: seq<AppendResult>)
    requires !writer.closed && writer.file.bytes == [] && |answers| == |ms|
    requires forall i | 0 <= i < |ms| :: Recordable(ms[i])
    modifies writer.file
    ensures GoodHistory(HistoryOf(ms, answers)) && writer.file.bytes == FileOf(HistoryOf(ms, answers))
    ensures |results| == |ms|
    ensures forall i | 0 <= i < |ms| :: results[i] == if HistoryOf(ms, answers)[i].Whole? then Appended else WriteFailed
  {
    hide LineBytes, Serialize, Recordable, GoodAppend, Written, FileOf, Taken;
    results := [];
    ghost var h := HistoryOf(ms, answers);
    NothingWritten();
    assert h[..0] == [];
    for i := 0 to |ms|
      invariant GoodHistory(h[..i]) && writer.file.bytes == FileOf(h[..i])
      invariant |results| == i
      invariant forall j | 0 <= j < i :: results[j] == if h[j].Whole? then Appended else WriteFailed
    {
      WrittenIsTaken(ms[i], answers[i]);
      var r := writer.Append(ms[i], answers[i]);
      FileGrows(h[..i], h[i]);
      assert h[..i + 1] == h[..i] + [h[i]];
      results := results + [r];
    }
    assert h[..|ms|] == h;
  }

  lemma NothingWritten()
    ensures GoodHistory([]) && FileOf([]) == []
  {
  }

  /** What a reader gets from the file such a run leaves. */
  method WriteThenRead(writer: TranscriptWriter, reader: TranscriptReader, ms: seq<Message>, answers: seq<seq<int>>)
    returns (entries: seq<Json>)
    requires reader.file == writer.file && !writer.closed && writer.file.bytes == [] && |answers| == |ms|
    requires forall i | 0 <= i < |ms| :: Recordable(ms[i])
    modifies writer.file, reader
    ensures Separated(HistoryOf(ms, answers), false) ==> entries == Survivors(HistoryOf(ms, answers), None)
    ensures (forall i | 0 <= i < |ms| :: Taken(answers[i], |LineBytes(ms[i])|) == |LineBytes(ms[i])|) ==>
      entries == seq(|ms|, i requires 0 <= i < |ms| => Payload(ms[i]))
    ensures (forall i | 0 <= i < |ms| :: Taken(answers[i], |LineBytes(ms[i])|) == |LineBytes(ms[i])|) ==>
      forall i | 0 <= i < |ms| && ms[i].Shaped? :: entries[i] == Obj(ms[i].members)
  {
    assert forall i | 0 <= i < |ms| && ms[i].Shaped? :: Payload(ms[i]) == Obj(ms[i].members);
    hide LineBytes, Payload, Recordable, FileOf, ReadBytes, Survivors;
    var _ := AppendAll(writer, ms, answers);
    entries := reader.ReadAll();
    ghost var h := HistoryOf(ms, answers);
    if Separated(h, false) {
      ReadsSurvivors(h);
    }
    if forall i | 0 <= i < |ms| :: h[i].Whole? {
      assert h == AllWhole(ms);
      RoundTrip(ms);
    }
  }
}
