/**
 The rotated event log of src/event_store/mod.rs. Slot 0 is the live log and slot i the file
 "<path>.i", up to the number of rotated files the retention allows; a missing file is None. An
 event is one line, of which only the id and the encoded size matter here. Renames are atomic.
 */
module EventLog {
  import opened Wrappers

  datatype Event = Event(requestId: string, bytes: nat)

  datatype Retention = Retention(maxSizeBytes: nat, maxFiles: nat)

  type Files = seq<Option<seq<Event>>>

  function Size(file: seq<Event>): nat {
    if file == [] then 0 else Size(file[..|file| - 1]) + file[|file| - 1].bytes
  }

  function Content(file: Option<seq<Event>>): seq<Event> {
    if file.Some? then file.value else []
  }

  function Missing(n: nat): Files { seq(n, _ => None) }

  // ----- what rotation, appending and reading do -----

  predicate Rotates(files: Files, r: Retention, incoming: nat)
    requires |files| == r.maxFiles + 1
  {
    r.maxFiles > 0 && r.maxSizeBytes > 0 && files[0].Some? && Size(files[0].value) + incoming > r.maxSizeBytes
  }

  /** Every file moves up by one, and the one in the last slot is gone. */
  function Rotated(files: Files): Files
    requires files != []
  {
    [None] + files[..|files| - 1]
  }

  function Appended(files: Files, r: Retention, e: Event): (after: Files)
    requires |files| == r.maxFiles + 1
    ensures |after| == |files|
  {
    var room := if Rotates(files, r, e.bytes) then Rotated(files) else files;
    room[0 := Some(Content(room[0]) + [e])]
  }

  /** The lines of all files, oldest first. */
  function Lines(files: Files): seq<Event> {
    if files == [] then [] else Lines(files[1..]) + Content(files[0])
  }

  function Newest(lines: seq<Event>, requestId: string): Option<Event> {
    if lines == [] then None
    else if lines[|lines| - 1].requestId == requestId then Some(lines[|lines| - 1])
    else Newest(lines[..|lines| - 1], requestId)
  }

  // ----- the invariant -----

  predicate Unrotated(r: Retention) { r.maxFiles == 0 || r.maxSizeBytes == 0 }

  ghost predicate EndOf(lines: seq<Event>, history: seq<Event>) {
    |lines| <= |history| && lines == history[|history| - |lines|..]
  }

  lemma {:induction false} EndOfEnd(end: seq<Event>, lines: seq<Event>, history: seq<Event>)
    requires EndOf(lines, history) && EndOf(end, lines)
    ensures EndOf(end, history)
  {
  }

  /** Exactly the first n files exist; each holds an event, and more than one only within the size. */
  ghost predicate Packed(files: Files, r: Retention, n: nat) {
    && n <= |files|
    && (forall i :: 0 <= i < |files| ==> (files[i].Some? <==> i < n))
    && (forall i :: 0 <= i < n ==> files[i].Some? && FileFits(files[i].value, r))
  }

  predicate FileFits(file: seq<Event>, r: Retention) {
    |file| == 1 || (|file| > 1 && Size(file) <= r.maxSizeBytes)
  }

  ghost predicate LiveOnly(files: Files) {
    forall i :: 0 < i < |files| ==> files[i].None?
  }

  /** `files` hold the end of `history`: nothing but its oldest events may be missing, and only once
      every slot is in use. */
  ghost predicate Holds(files: Files, r: Retention, history: seq<Event>) {
    && |files| == r.maxFiles + 1
    && EndOf(Lines(files), history)
    && if Unrotated(r) then LiveOnly(files) && |Lines(files)| == |history|
       else exists n :: Packed(files, r, n) && (|Lines(files)| < |history| ==> n == |files|)
  }

  // ----- reading after writing -----

  lemma {:induction false} LinesOldestFirst(files: Files)
    requires files != []
    ensures Lines(files) == Content(files[|files| - 1]) + Lines(files[..|files| - 1])
  {
    if |files| > 1 {
      LinesOldestFirst(files[1..]);
      assert files[1..][..|files| - 2] == files[..|files| - 1][1..];
    }
  }

  lemma {:induction false} LinesGrow(files: Files, e: Event)
    requires files != []
    ensures Lines(files[0 := Some(Content(files[0]) + [e])]) == Lines(files) + [e]
  {
    assert files[0 := Some(Content(files[0]) + [e])][1..] == files[1..];
  }

  function Dropped(files: Files, r: Retention, incoming: nat): seq<Event>
    requires |files| == r.maxFiles + 1
  {
    if Rotates(files, r, incoming) then Content(files[r.maxFiles]) else []
  }

  /** An append adds its event at the end, and drops exactly the events of the file in the last slot
      when it rotates; otherwise it drops nothing. */
  lemma {:induction false} AppendDropsOnlyOldest(files: Files, r: Retention, e: Event)
    requires |files| == r.maxFiles + 1
    ensures Dropped(files, r, e.bytes) + Lines(Appended(files, r, e)) == Lines(files) + [e]
  {
    if Rotates(files, r, e.bytes) {
      LinesOldestFirst(files);
      assert Rotated(files)[1..] == files[..r.maxFiles];
      LinesGrow(Rotated(files), e);
    } else {
      LinesGrow(files, e);
    }
  }

  lemma {:induction false} RotationPacks(files: Files, r: Retention, e: Event, n: nat)
    requires |files| == r.maxFiles + 1 && Packed(files, r, n) && Rotates(files, r, e.bytes)
    ensures Packed(Appended(files, r, e), r, if n < |files| then n + 1 else n)
  {
  }

  lemma {:induction false} GrowthPacks(files: Files, r: Retention, e: Event, n: nat)
    requires |files| == r.maxFiles + 1 && !Unrotated(r) && Packed(files, r, n) && !Rotates(files, r, e.bytes)
    ensures Packed(Appended(files, r, e), r, if n == 0 then 1 else n)
  {
  }

  lemma {:induction false} EndGrows(
    lines: seq<Event>, history: seq<Event>, e: Event, dropped: seq<Event>, after: seq<Event>)
    requires EndOf(lines, history) && dropped + after == lines + [e]
    ensures EndOf(after, history + [e]) && |after| == |lines| + 1 - |dropped|
  {
    var all := history + [e];
    assert all[|history| - |lines|..] == lines + [e];
    assert after == (dropped + after)[|dropped|..];
    assert all[|history| - |lines|..][|dropped|..] == all[|all| - |after|..];
  }

  /** Every append keeps the log holding the end of all that was appended. */
  lemma {:induction false} AppendKeepsHistory(files: Files, r: Retention, history: seq<Event>, e: Event)
    requires Holds(files, r, history)
    ensures Holds(Appended(files, r, e), r, history + [e])
  {
    AppendDropsOnlyOldest(files, r, e);
    EndGrows(Lines(files), history, e, Dropped(files, r, e.bytes), Lines(Appended(files, r, e)));
    if !Unrotated(r) {
      var n :| Packed(files, r, n) && (|Lines(files)| < |history| ==> n == |files|);
      if Rotates(files, r, e.bytes) {
        RotationPacks(files, r, e, n);
      } else {
        GrowthPacks(files, r, e, n);
      }
    }
  }

  function AppendAll(files: Files, r: Retention, events: seq<Event>): (after: Files)
    requires |files| == r.maxFiles + 1
    ensures |after| == |files|
    decreases |events|
  {
    if events == [] then files else AppendAll(Appended(files, r, events[0]), r, events[1..])
  }

  lemma {:induction false} AppendAllHolds(files: Files, r: Retention, history: seq<Event>, events: seq<Event>)
    requires Holds(files, r, history)
    ensures Holds(AppendAll(files, r, events), r, history + events)
    decreases |events|
  {
    if events == [] {
      assert history + events == history;
    } else {
      AppendKeepsHistory(files, r, history, events[0]);
      AppendAllHolds(Appended(files, r, events[0]), r, history + [events[0]], events[1..]);
      assert history + [events[0]] + events[1..] == history + events;
    }
  }

  lemma {:induction false} NoLines(n: nat)
    ensures Lines(Missing(n)) == []
  {
    if n > 0 {
      assert Missing(n)[1..] == Missing(n - 1);
      NoLines(n - 1);
    }
  }

  lemma {:induction false} EmptyHolds(r: Retention)
    ensures Holds(Missing(r.maxFiles + 1), r, [])
  {
    NoLines(r.maxFiles + 1);
    assert Packed(Missing(r.maxFiles + 1), r, 0);
  }

  lemma {:induction false} EachFileHasALine(files: Files)
    requires forall i :: 0 <= i < |files| ==> files[i].Some? && |files[i].value| > 0
    ensures |Lines(files)| >= |files|
  {
    if files != [] { EachFileHasALine(files[1..]); }
  }

  /** Rotation loses only the oldest data. From an empty log, what is read back is always the end of
      what was appended, in order. Every rotated file is within the size limit or holds one event,
      and once anything is lost at least maxFiles + 1 events can still be read. With rotation
      switched off nothing is ever lost. */
  lemma {:induction false} RotationLosesOnlyOldest(r: Retention, events: seq<Event>)
    returns (files: Files, lines: seq<Event>)
    ensures files == AppendAll(Missing(r.maxFiles + 1), r, events) && lines == Lines(files)
    ensures EndOf(lines, events)
    ensures !Unrotated(r) ==> forall i :: 0 <= i < |files| && files[i].Some? ==> FileFits(files[i].value, r)
    ensures |lines| < |events| ==> !Unrotated(r) && |lines| >= r.maxFiles + 1
  {
    files := AppendAll(Missing(r.maxFiles + 1), r, events);
    lines := Lines(files);
    EmptyHolds(r);
    AppendAllHolds(Missing(r.maxFiles + 1), r, [], events);
    assert [] + events == events;
    if !Unrotated(r) {
      var n :| Packed(files, r, n) && (|lines| < |events| ==> n == |files|);
      if |lines| < |events| { EachFileHasALine(files); }
    }
  }

  // ----- when it rotates -----

  /** What the lines of a file take. */
  ghost function Bytes(file: seq<Event>): nat {
    if file == [] then 0 else file[0].bytes + Bytes(file[1..])
  }

  lemma {:induction false} BytesOneMore(file: seq<Event>, e: Event)
    ensures Bytes(file + [e]) == Bytes(file) + e.bytes
    decreases |file|
  {
    if file == [] {
      assert [] + [e] == [e] && [e][1..] == [];
    } else {
      assert (file + [e])[1..] == file[1..] + [e];
      BytesOneMore(file[1..], e);
    }
  }

  lemma {:induction false} SizeIsBytes(file: seq<Event>)
    ensures Size(file) == Bytes(file)
    decreases |file|
  {
    if file != [] {
      SizeIsBytes(file[..|file| - 1]);
      BytesOneMore(file[..|file| - 1], file[|file| - 1]);
      assert file == file[..|file| - 1] + [file[|file| - 1]];
    }
  }

  ghost predicate Overflows(live: Option<seq<Event>>, r: Retention, e: Event) {
    r.maxFiles >= 1 && r.maxSizeBytes >= 1 && live.Some? && Bytes(live.value) + e.bytes > r.maxSizeBytes
  }

  /** An append extends the live file, unless there are a size and slots to keep to and the event would
      take the file over the size: then it starts a new one, and every file moves up by one. */
  lemma {:induction false} AppendIsExact(files: Files, r: Retention, e: Event) returns (after: Files)
    requires |files| == r.maxFiles + 1
    ensures after == Appended(files, r, e) && |after| == |files|
    ensures if Overflows(files[0], r, e)
            then after[0] == Some([e]) && forall i :: 0 <= i < r.maxFiles ==> after[i + 1] == files[i]
            else
              && after[0] == Some(if files[0].Some? then files[0].value + [e] else [e])
              && forall i :: 0 < i <= r.maxFiles ==> after[i] == files[i]
  {
    after := Appended(files, r, e);
    if files[0].Some? { SizeIsBytes(files[0].value); }
    assert [] + [e] == [e];
  }

  /** No file was closed before it had to be: with the first line of the next one it exceeds the size. */
  ghost predicate Tight(files: Files, r: Retention) {
    forall i: nat :: i + 1 < |files| && files[i + 1].Some? ==>
      && files[i].Some? && files[i].value != []
      && Bytes(files[i + 1].value) + files[i].value[0].bytes > r.maxSizeBytes
  }

  lemma {:induction false} AppendKeepsTight(files: Files, r: Retention, e: Event)
    requires |files| == r.maxFiles + 1 && !Unrotated(r) && Tight(files, r)
    requires files[0].Some? ==> files[0].value != []
    ensures Tight(Appended(files, r, e), r) && Appended(files, r, e)[0].Some? && Appended(files, r, e)[0].value != []
  {
    var after := AppendIsExact(files, r, e);
    var full := files[0].Some? && Bytes(files[0].value) + e.bytes > r.maxSizeBytes;
    forall i: nat | i + 1 < |after| && after[i + 1].Some?
      ensures after[i].Some? && after[i].value != []
      ensures Bytes(after[i + 1].value) + after[i].value[0].bytes > r.maxSizeBytes
    {
      if full {
        if i > 0 { assert after[i + 1] == files[i] && after[i] == files[i - 1] && files[i - 1 + 1].Some?; }
      } else {
        assert after[i + 1] == files[i + 1] && files[i].Some?;
      }
    }
  }

  lemma {:induction false} RunsStayTight(files: Files, r: Retention, events: seq<Event>)
    requires |files| == r.maxFiles + 1 && !Unrotated(r) && Tight(files, r)
    requires files[0].Some? ==> files[0].value != []
    ensures Tight(AppendAll(files, r, events), r)
    decreases |events|
  {
    if events != [] {
      AppendKeepsTight(files, r, events[0]);
      RunsStayTight(Appended(files, r, events[0]), r, events[1..]);
    }
  }

  /** From an empty log no file is ever closed early. */
  lemma {:induction false} RotatesOnlyWhenFull(r: Retention, events: seq<Event>)
    requires !Unrotated(r)
    ensures Tight(AppendAll(Missing(r.maxFiles + 1), r, events), r)
  {
    RunsStayTight(Missing(r.maxFiles + 1), r, events);
  }

  /** Searching from the end finds the newest event with the id, if one is readable at all. */
  lemma {:induction false} NewestIsFound(lines: seq<Event>, requestId: string) returns (i: int)
    ensures -1 <= i < |lines|
    ensures forall j :: i < j < |lines| ==> lines[j].requestId != requestId
    ensures if i == -1 then Newest(lines, requestId) == None
            else lines[i].requestId == requestId && Newest(lines, requestId) == Some(lines[i])
  {
    i := |lines| - 1;
    if lines != [] && lines[i].requestId != requestId {
      i := NewestIsFound(lines[..|lines| - 1], requestId);
      assert forall j :: 0 <= j < |lines| - 1 ==> lines[j] == lines[..|lines| - 1][j];
    }
  }

  // ----- the log -----

  class Log {
    const retention: Retention
    var files: Files
    ghost var history: seq<Event>

    ghost predicate Valid()
      reads this
    {
      Holds(files, retention, history)
    }

    constructor (retention: Retention)
      ensures Valid() && this.retention == retention && files == Missing(retention.maxFiles + 1) && history == []
    {
      this.retention := retention;
      files := Missing(retention.maxFiles + 1);
      history := [];
      new;
      EmptyHolds(retention);
    }

    method RotateIfNeeded(incomingBytes: nat)
      requires |files| == retention.maxFiles + 1
      modifies this`files
      ensures files == if Rotates(old(files), retention, incomingBytes) then Rotated(old(files)) else old(files)
    {
      if retention.maxFiles == 0 || retention.maxSizeBytes == 0 || files[0].None? { return; }
      if Size(files[0].value) + incomingBytes <= retention.maxSizeBytes { return; }
      files := files[retention.maxFiles := None];
      var index := retention.maxFiles - 1;
      while index > 0
        invariant 0 <= index < retention.maxFiles && |files| == |old(files)|
        invariant files[index + 1] == None
        invariant forall i :: 0 <= i <= index ==> files[i] == old(files)[i]
        invariant forall i :: index + 1 < i < |files| ==> files[i] == old(files)[i - 1]
      {
        if files[index].Some? {
          files := files[index + 1 := files[index]][index := None];
        }
        index := index - 1;
      }
      files := files[1 := files[0]][0 := None];
    }

    method Append(e: Event)
      requires Valid()
      modifies this
      ensures Valid() && history == old(history) + [e] && files == Appended(old(files), retention, e)
    {
      AppendKeepsHistory(files, retention, history, e);
      RotateIfNeeded(e.bytes);
      files := files[0 := Some(Content(files[0]) + [e])];
      history := history + [e];
    }

    method ReadEventLines() returns (lines: seq<Event>)
      ensures lines == Lines(files)
    {
      lines := [];
      var i := |files|;
      assert files[..i] == files;
      while i > 0
        invariant 0 <= i <= |files| && lines + Lines(files[..i]) == Lines(files)
      {
        LinesOldestFirst(files[..i]);
        assert files[..i][..i - 1] == files[..i - 1] && files[..i][i - 1] == files[i - 1];
        i := i - 1;
        if files[i].Some? { lines := lines + files[i].value; }
      }
    }

    /** The last `limit` lines, which are the last appended ones. */
    method Tail(limit: nat) returns (lines: seq<Event>)
      requires Valid()
      ensures |lines| == (if limit <= |Lines(files)| then limit else |Lines(files)|) && EndOf(lines, history)
    {
      var all := ReadEventLines();
      lines := if limit < |all| then all[|all| - limit..] else all;
      EndOfEnd(lines, all, history);
    }

    method FindByRequestId(requestId: string) returns (found: Option<Event>)
      ensures found == Newest(Lines(files), requestId)
    {
      var lines := ReadEventLines();
      var i := |lines|;
      assert lines[..i] == lines;
      while i > 0
        invariant 0 <= i <= |lines| && Newest(lines, requestId) == Newest(lines[..i], requestId)
      {
        assert lines[..i][..i - 1] == lines[..i - 1];
        i := i - 1;
        if lines[i].requestId == requestId { return Some(lines[i]); }
      }
      return None;
    }
  }
}
