/** The bounded diagnostic journal: appending, counting and rotation. */
module Journal {
  import opened Types

  type Line(==, !new)

  type Record(==, !new)

  /** Reading and writing of one line, and its size in bytes with the newline. */
  datatype Format = Format(parse: Line -> Option<Record>, write: Record -> Line, size: Line -> nat)

  /** Every line is at least its newline, and a written record is never blank. */
  ghost predicate Plausible(format: Format) {
    && (forall line :: format.size(line) >= 1)
    && (forall record :: format.size(format.write(record)) > 1)
  }

  /** What was written reads back as it was. */
  ghost predicate Faithful(format: Format) {
    forall record :: format.parse(format.write(record)) == Some(record)
  }

  datatype Limits = Limits(bytes: nat, entries: nat)

  const MIN_BYTES := 1_024
  const MIN_ENTRIES := 8

  /** The limits a journal works with, whatever its options asked for. */
  function Clamped(bytes: int, entries: int): (limits: Limits)
    ensures limits.bytes >= MIN_BYTES && limits.entries >= MIN_ENTRIES
    ensures bytes >= MIN_BYTES && entries >= MIN_ENTRIES ==> limits == Limits(bytes, entries)
  {
    Limits(if bytes > MIN_BYTES then bytes else MIN_BYTES, if entries > MIN_ENTRIES then entries else MIN_ENTRIES)
  }

  /** Three quarters of a limit, rounded down, and never nothing. */
  function Target(limit: nat): (target: nat)
    ensures 1 <= target && (limit >= 2 ==> target < limit)
  {
    if 3 * limit / 4 < 1 then 1 else 3 * limit / 4
  }

  datatype Usage = Usage(bytes: nat, entries: nat)

  function Bytes(format: Format, lines: seq<Line>): nat {
    if lines == [] then 0 else format.size(lines[0]) + Bytes(format, lines[1..])
  }

  predicate Blank(format: Format, line: Line) {
    format.size(line) <= 1
  }

  function Entries(format: Format, lines: seq<Line>): nat {
    if lines == [] then 0 else (if Blank(format, lines[0]) then 0 else 1) + Entries(format, lines[1..])
  }

  function UsageOf(format: Format, lines: seq<Line>): Usage {
    Usage(Bytes(format, lines), Entries(format, lines))
  }

  predicate Within(usage: Usage, limits: Limits) {
    usage.bytes <= limits.bytes && usage.entries <= limits.entries
  }

  /** The records of the lines that read as records; blank and invalid lines are passed over. */
  function Records(format: Format, lines: seq<Line>): seq<Record> {
    if lines == [] then []
    else
      (if Blank(format, lines[0]) || format.parse(lines[0]).None? then [] else [format.parse(lines[0]).value])
      + Records(format, lines[1..])
  }

  function Written(format: Format, records: seq<Record>): (lines: seq<Line>)
    ensures |lines| == |records|
  {
    seq(|records|, i requires 0 <= i < |records| => format.write(records[i]))
  }

  predicate Fits(format: Format, lines: seq<Line>, limits: Limits) {
    |lines| <= Target(limits.entries) && Bytes(format, lines) <= Target(limits.bytes)
  }

  /** The reference for a rotation: drop the oldest line until the rest fits. */
  function Rotated(format: Format, lines: seq<Line>, limits: Limits): seq<Line> {
    if lines == [] || Fits(format, lines, limits) then lines else Rotated(format, lines[1..], limits)
  }

  datatype State = State(file: seq<Line>, counters: Option<Usage>)

  /** Where an append throws: before the line is on disk, after it and before the rotated file is in place, or
      nowhere. */
  datatype Fault = Never | BeforeWriting | AfterWriting

  /** An append: after a fault the counters are unknown, otherwise they are kept and the bounds enforced. */
  function Append(format: Format, limits: Limits, s: State, record: Record, fault: Fault): State {
    var file := s.file + [format.write(record)];
    if fault == BeforeWriting then State(s.file, None)
    else if fault == AfterWriting then State(file, None)
    else
      var counted := if s.counters.Some? then s.counters.value else UsageOf(format, s.file);
      var usage := Usage(counted.bytes + format.size(format.write(record)), counted.entries + 1);
      if Within(usage, limits) then State(file, Some(usage))
      else
        var kept := Rotated(format, Written(format, Records(format, file)), limits);
        State(kept, Some(Usage(Bytes(format, kept), |kept|)))
  }

  // ---------- sizes ----------

  lemma {:induction false} UsageSplits(format: Format, left: seq<Line>, right: seq<Line>)
    ensures Bytes(format, left + right) == Bytes(format, left) + Bytes(format, right)
    ensures Entries(format, left + right) == Entries(format, left) + Entries(format, right)
  {
    if left == [] {
      assert left + right == right;
    } else {
      assert (left + right)[1..] == left[1..] + right;
      UsageSplits(format, left[1..], right);
    }
  }

  lemma {:induction false} WrittenLinesAreEntries(format: Format, lines: seq<Line>)
    requires Plausible(format) && forall i :: 0 <= i < |lines| ==> !Blank(format, lines[i])
    ensures Entries(format, lines) == |lines|
  {
    if lines != [] { WrittenLinesAreEntries(format, lines[1..]); }
  }

  // ---------- rotation ----------

  lemma {:induction false} RotatedIsSuffix(format: Format, lines: seq<Line>, limits: Limits)
    ensures var kept := Rotated(format, lines, limits);
            && |kept| <= |lines| && kept == lines[|lines| - |kept|..]
            && Fits(format, kept, limits)
  {
    if lines != [] && !Fits(format, lines, limits) { RotatedIsSuffix(format, lines[1..], limits); }
  }

  lemma LongerTakesMore(format: Format, lines: seq<Line>, i: nat, j: nat)
    requires i <= j <= |lines|
    ensures Bytes(format, lines[j..]) <= Bytes(format, lines[i..])
  {
    assert lines[i..] == lines[i..j] + lines[j..];
    UsageSplits(format, lines[i..j], lines[j..]);
  }

  /** The reference is the longest fitting suffix: whatever fits is no longer, and a suffix that cannot grow is it. */
  lemma {:induction false} RotatedIsLongest(format: Format, lines: seq<Line>, limits: Limits, k: nat)
    requires k <= |lines| && Fits(format, lines[k..], limits)
    ensures |lines[k..]| <= |Rotated(format, lines, limits)|
    ensures (k > 0 ==> !Fits(format, lines[k - 1..], limits)) ==> Rotated(format, lines, limits) == lines[k..]
  {
    if k == 0 {
      assert lines[0..] == lines;
    } else if lines != [] && !Fits(format, lines, limits) {
      assert lines[1..][k - 1..] == lines[k..];
      if k > 1 { assert lines[1..][k - 2..] == lines[k - 1..]; }
      RotatedIsLongest(format, lines[1..], limits, k - 1);
    } else {
      LongerTakesMore(format, lines, 0, k - 1);
      assert lines[0..] == lines;
    }
  }

  /** A rotation keeps exactly the newest records, written again, that fit three quarters of both limits. */
  lemma RotationKeepsTheNewest(format: Format, file: seq<Line>, limits: Limits)
    ensures var lines := Written(format, Records(format, file));
            var kept := Rotated(format, lines, limits);
            && |kept| <= |lines| && kept == lines[|lines| - |kept|..]
            && Fits(format, kept, limits)
            && forall k :: 0 <= k < |lines| - |kept| ==> !Fits(format, lines[k..], limits)
  {
    var lines := Written(format, Records(format, file));
    RotatedIsSuffix(format, lines, limits);
    forall k | 0 <= k < |lines| - |Rotated(format, lines, limits)| ensures !Fits(format, lines[k..], limits) {
      if Fits(format, lines[k..], limits) { RotatedIsLongest(format, lines, limits, k); }
    }
  }

  /** The targets are three quarters of the limits, rounded down. */
  lemma FitsThreeQuarters(format: Format, lines: seq<Line>, limits: Limits)
    requires limits.bytes >= MIN_BYTES && limits.entries >= MIN_ENTRIES
    ensures Fits(format, lines, limits)
            <==> 4 * |lines| <= 3 * limits.entries && 4 * Bytes(format, lines) <= 3 * limits.bytes
  {
    TargetIsThreeQuarters(limits.entries, |lines|);
    TargetIsThreeQuarters(limits.bytes, Bytes(format, lines));
  }

  lemma TargetIsThreeQuarters(limit: nat, size: nat)
    requires limit >= 2
    ensures size <= Target(limit) <==> 4 * size <= 3 * limit
  {
  }

  // ---------- bounds ----------

  /** Known counters are right, and what they count is within the limits. */
  ghost predicate Inv(format: Format, limits: Limits, s: State) {
    s.counters.Some? ==> s.counters.value == UsageOf(format, s.file) && Within(s.counters.value, limits)
  }

  /** After an append that did not fail the file is within both limits and the counters are exactly its usage. */
  lemma AppendStaysWithinBounds(format: Format, limits: Limits, s: State, record: Record, fault: Fault)
    requires Plausible(format) && limits.bytes >= MIN_BYTES && limits.entries >= MIN_ENTRIES
    requires Inv(format, limits, s)
    ensures var after := Append(format, limits, s, record, fault);
            && Inv(format, limits, after)
            && (after.counters.Some? <==> fault == Never)
  {
    var line := format.write(record);
    UsageSplits(format, s.file, [line]);
    var lines := Written(format, Records(format, s.file + [line]));
    var kept := Rotated(format, lines, limits);
    RotatedIsSuffix(format, lines, limits);
    WrittenLinesAreEntries(format, kept);
  }

  ghost predicate Run(format: Format, limits: Limits, states: seq<State>, records: seq<Record>, faults: seq<Fault>) {
    && |states| == |records| + 1 && |faults| == |records|
    && states[0].counters == None
    && forall i :: 0 <= i < |records| ==> states[i + 1] == Append(format, limits, states[i], records[i], faults[i])
  }

  /** Whatever file the journal was opened on and whatever failed before, a successful append leaves it bounded. */
  lemma {:induction false} JournalStaysBounded(
    format: Format, limits: Limits, states: seq<State>, records: seq<Record>, faults: seq<Fault>, n: nat)
    requires Plausible(format) && limits.bytes >= MIN_BYTES && limits.entries >= MIN_ENTRIES
    requires Run(format, limits, states, records, faults) && n <= |records|
    ensures Inv(format, limits, states[n])
    ensures n > 0 && faults[n - 1] == Never ==>
              Within(UsageOf(format, states[n].file), limits)
              && states[n].counters == Some(UsageOf(format, states[n].file))
  {
    if n > 0 {
      JournalStaysBounded(format, limits, states, records, faults, n - 1);
      AppendStaysWithinBounds(format, limits, states[n - 1], records[n - 1], faults[n - 1]);
    }
  }

  // ---------- what is still there ----------

  predicate Suffix<T(==)>(short: seq<T>, long: seq<T>) {
    |short| <= |long| && short == long[|long| - |short|..]
  }

  lemma {:induction false} RecordsSplit(format: Format, left: seq<Line>, right: seq<Line>)
    ensures Records(format, left + right) == Records(format, left) + Records(format, right)
  {
    if left == [] {
      assert left + right == right;
    } else {
      assert (left + right)[1..] == left[1..] + right;
      RecordsSplit(format, left[1..], right);
    }
  }

  /** Records written again read back unchanged. */
  lemma {:induction false} WrittenReadsBack(format: Format, records: seq<Record>)
    requires Plausible(format) && Faithful(format)
    ensures Records(format, Written(format, records)) == records
  {
    if records != [] {
      assert Written(format, records)[1..] == Written(format, records[1..]);
      WrittenReadsBack(format, records[1..]);
    }
  }

  /** What one append adds to the file, before any rotation. */
  function Reached(record: Record, fault: Fault): seq<Record> {
    if fault == BeforeWriting then [] else [record]
  }

  lemma RecordsAfterRotation(format: Format, limits: Limits, all: seq<Record>)
    requires Plausible(format) && Faithful(format)
    ensures Suffix(Records(format, Rotated(format, Written(format, all), limits)), all)
  {
    var kept := Rotated(format, Written(format, all), limits);
    RotatedIsSuffix(format, Written(format, all), limits);
    var from := |all| - |kept|;
    assert kept == Written(format, all[from..]);
    WrittenReadsBack(format, all[from..]);
  }

  lemma RecordsAfterWriting(format: Format, file: seq<Line>, record: Record)
    requires Plausible(format) && Faithful(format)
    ensures Records(format, file + [format.write(record)]) == Records(format, file) + [record]
  {
    RecordsSplit(format, file, [format.write(record)]);
    assert Records(format, [format.write(record)]) == [record];
  }

  lemma RecordsAfterAppend(format: Format, limits: Limits, s: State, record: Record, fault: Fault)
    requires Plausible(format) && Faithful(format)
    ensures Suffix(Records(format, Append(format, limits, s, record, fault).file),
                   Records(format, s.file) + Reached(record, fault))
  {
    var before := Records(format, s.file);
    assert before + [] == before;
    if fault == BeforeWriting {
      Whole(before);
    } else {
      RecordsAfterWriting(format, s.file, record);
      Whole(before + [record]);
      RecordsAfterRotation(format, limits, before + [record]);
    }
  }

  lemma Whole<T>(s: seq<T>)
    ensures Suffix(s, s)
  {
  }

  /** Every record whose line reached the file, in order. */
  function Recorded(records: seq<Record>, faults: seq<Fault>): seq<Record>
    requires |records| == |faults|
  {
    if records == [] then []
    else
      var last := |records| - 1;
      Recorded(records[..last], faults[..last]) + Reached(records[last], faults[last])
  }

  /** The journal always reads as the newest part of all that was ever recorded: no gap, no reordering, nothing
      twice. */
  lemma {:induction false} JournalIsTheNewestHistory(
    format: Format, limits: Limits, states: seq<State>, records: seq<Record>, faults: seq<Fault>, n: nat)
    requires Plausible(format) && Faithful(format)
    requires Run(format, limits, states, records, faults) && n <= |records|
    ensures Suffix(Records(format, states[n].file),
                   Records(format, states[0].file) + Recorded(records[..n], faults[..n]))
  {
    if n == 0 {
      assert Recorded(records[..0], faults[..0]) == [];
      assert Suffix(Records(format, states[0].file), Records(format, states[0].file) + []);
    } else {
      JournalIsTheNewestHistory(format, limits, states, records, faults, n - 1);
      RecordsAfterAppend(format, limits, states[n - 1], records[n - 1], faults[n - 1]);
      OneMoreRecorded(records, faults, n);
      SuffixAppend(Records(format, states[n - 1].file), Records(format, states[0].file),
                   Recorded(records[..n - 1], faults[..n - 1]), Reached(records[n - 1], faults[n - 1]),
                   Records(format, states[n].file));
    }
  }

  lemma OneMoreRecorded(records: seq<Record>, faults: seq<Fault>, n: nat)
    requires |records| == |faults| && 0 < n <= |records|
    ensures Recorded(records[..n], faults[..n])
            == Recorded(records[..n - 1], faults[..n - 1]) + Reached(records[n - 1], faults[n - 1])
  {
    assert records[..n][..n - 1] == records[..n - 1] && faults[..n][..n - 1] == faults[..n - 1];
  }

  lemma SuffixAppend<T>(short: seq<T>, first: seq<T>, more: seq<T>, added: seq<T>, shorter: seq<T>)
    requires Suffix(short, first + more) && Suffix(shorter, short + added)
    ensures Suffix(shorter, first + (more + added))
  {
    assert first + (more + added) == (first + more) + added;
  }

  predicate Rotates(format: Format, limits: Limits, s: State, record: Record) {
    var counted := if s.counters.Some? then s.counters.value else UsageOf(format, s.file);
    !Within(Usage(counted.bytes + format.size(format.write(record)), counted.entries + 1), limits)
  }

  /** The record just appended is the journal's last unless it forces a rotation its own line is too long for: then the
      whole journal is emptied. */
  lemma NewestSurvivesUnlessTooLong(format: Format, limits: Limits, s: State, record: Record)
    requires Plausible(format) && Faithful(format) && limits.entries >= MIN_ENTRIES
    ensures var after := Append(format, limits, s, record, Never).file;
            var tooLong := Rotates(format, limits, s, record)
                           && format.size(format.write(record)) > Target(limits.bytes);
            && (tooLong ==> after == [])
            && (!tooLong ==> after != [] && after[|after| - 1] == format.write(record))
  {
    if Rotates(format, limits, s, record) {
      RecordsAfterWriting(format, s.file, record);
      var lines := Written(format, Records(format, s.file + [format.write(record)]));
      var last := |lines| - 1;
      assert lines[last] == format.write(record) && lines[last..] == [format.write(record)];
      assert Bytes(format, lines[last..]) == format.size(format.write(record));
      assert lines[last + 1..] == [];
      RotatedIsSuffix(format, lines, limits);
      if Fits(format, lines[last..], limits) {
        RotatedIsLongest(format, lines, limits, last);
      } else {
        RotatedIsLongest(format, lines, limits, last + 1);
      }
    }
  }

  /** Such a record: two lines of 800 bytes exceed a limit of 1,024, and three quarters of it do not hold even one. */
  lemma LongRecordEmptiesJournal(line: Line, record: Record)
    ensures var format := Format(_ => Some(record), _ => line, _ => 800);
            && Rotates(format, Limits(1_024, 8), State([line], None), record)
            && Append(format, Limits(1_024, 8), State([line], None), record, Never) == State([], Some(Usage(0, 0)))
  {
    var format := Format(_ => Some(record), _ => line, _ => 800);
    assert [line][1..] == [] && [line] + [line] == [line, line] && [line, line][1..] == [line];
    assert Bytes(format, [line]) == 800 && Records(format, [line]) == [record];
    assert Records(format, [line, line]) == [record, record];
    assert Written(format, [record, record]) == [line, line];
    assert Bytes(format, [line, line]) == 1600;
    assert Rotated(format, [line], Limits(1_024, 8)) == [];
  }
}

/** The journal as its methods update the file and the counters. */
module DiagnosticJournals {
  import opened Types
  import opened Journal

  class DiagnosticJournal {
    var file: seq<Line>
    var bytesOnDisk: Option<nat>
    var entriesOnDisk: Option<nat>
    const format: Format
    const limits: Limits

    /** The two counters are known or unknown together. */
    ghost predicate Valid()
      reads this
    {
      && Plausible(format)
      && limits.bytes >= MIN_BYTES && limits.entries >= MIN_ENTRIES
      && (bytesOnDisk.Some? <==> entriesOnDisk.Some?)
      && Inv(format, limits, View())
    }

    ghost function View(): State
      reads this
    {
      State(file, if bytesOnDisk.Some? && entriesOnDisk.Some?
                  then Some(Usage(bytesOnDisk.value, entriesOnDisk.value)) else None)
    }

    constructor (format: Format, file: seq<Line>, maxBytes: int, maxEntries: int)
      requires Plausible(format)
      ensures Valid() && View() == State(file, None)
      ensures this.format == format && limits == Clamped(maxBytes, maxEntries)
    {
      this.format, this.file := format, file;
      limits := Clamped(maxBytes, maxEntries);
      bytesOnDisk, entriesOnDisk := None, None;
    }

    /** The records of the file, oldest first. */
    method ReadAll() returns (records: seq<Record>)
      ensures records == Records(format, file)
    {
      records := [];
      assert file[..0] == [];
      for i := 0 to |file|
        invariant records == Records(format, file[..i])
      {
        assert file[..i + 1] == file[..i] + [file[i]];
        RecordsSplit(format, file[..i], [file[i]]);
        if !Blank(format, file[i]) {
          var record := format.parse(file[i]);
          if record.Some? { records := records + [record.value]; }
        }
      }
      assert file[..|file|] == file;
    }

    /** Walks from the newest record back while both targets hold; `kept` stays in file order. */
    method KeepNewest(records: seq<Record>) returns (kept: seq<Line>, bytes: nat)
      ensures kept == Rotated(format, Written(format, records), limits)
      ensures bytes == Bytes(format, kept)
    {
      ghost var lines := Written(format, records);
      var i := |records|;
      kept, bytes := [], 0;
      while i > 0
        invariant 0 <= i <= |records|
        invariant kept == lines[i..] && bytes == Bytes(format, kept) && Fits(format, kept, limits)
      {
        var line := format.write(records[i - 1]);
        assert lines[i - 1..] == [line] + lines[i..];
        UsageSplits(format, [line], lines[i..]);
        assert Bytes(format, [line]) == format.size(line);
        if |kept| >= Target(limits.entries) || bytes + format.size(line) > Target(limits.bytes) { break; }
        kept, bytes := [line] + kept, bytes + format.size(line);
        i := i - 1;
      }
      RotatedIsLongest(format, lines, limits, i);
    }

    method EnforceBounds()
      requires bytesOnDisk.Some? && entriesOnDisk.Some?
      modifies this
      ensures bytesOnDisk.Some? && entriesOnDisk.Some?
      ensures var within := Within(Usage(old(bytesOnDisk).value, old(entriesOnDisk).value), limits);
              && (within ==> View() == old(View()))
              && (!within ==>
                    && file == Rotated(format, Written(format, Records(format, old(file))), limits)
                    && bytesOnDisk == Some(Bytes(format, file)) && entriesOnDisk == Some(|file|))
    {
      if entriesOnDisk.value <= limits.entries && bytesOnDisk.value <= limits.bytes { return; }
      var records := ReadAll();
      var kept, bytes := KeepNewest(records);
      file := kept;
      bytesOnDisk, entriesOnDisk := Some(bytes), Some(|kept|);
    }

    /** `fault` says where the file system lets the append down, if anywhere. */
    method Append(record: Record, fault: Fault)
      requires Valid()
      modifies this
      ensures Valid() && View() == Journal.Append(format, limits, old(View()), record, fault)
    {
      AppendStaysWithinBounds(format, limits, View(), record, fault);
      if fault == BeforeWriting {
        bytesOnDisk, entriesOnDisk := None, None;
        return;
      }
      if entriesOnDisk.None? || bytesOnDisk.None? {
        entriesOnDisk, bytesOnDisk := Some(Entries(format, file)), Some(Bytes(format, file));
      }
      var line := format.write(record);
      file := file + [line];
      entriesOnDisk := Some(entriesOnDisk.value + 1);
      bytesOnDisk := Some(bytesOnDisk.value + format.size(line));
      if fault == AfterWriting {
        bytesOnDisk, entriesOnDisk := None, None;
        return;
      }
      EnforceBounds();
    }
  }
}
