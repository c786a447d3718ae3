/** Resetting a dispatched state file: backup first, then an atomic replacement. */
module StateReset {
  import opened Json
  import opened StateStore

  datatype ResetError = UnsafeSegment | KeyNotFound | ShapeInvalid | BadText | BackupFailed | WriteFailed

  /** A result value with the numbers of steps and fields removed. */
  datatype Reset = Reset(value: Json, stepsRemoved: nat, fieldsRemoved: nat)

  datatype Maybe<T> = Done(value: T) | Refused(error: ResetError)

  predicate Matches(v: Json, steps: seq<string>) {
    v.Str? && v.s in steps
  }

  function KeepSteps(items: seq<Json>, steps: seq<string>): (kept: seq<Json>)
    ensures |kept| <= |items|
  {
    if items == [] then []
    else
      var last := items[|items| - 1];
      KeepSteps(items[..|items| - 1], steps) + if Matches(last, steps) then [] else [last]
  }

  /** Every matching step goes, everything else stays, with its repetitions. */
  lemma {:induction false} KeepStepsIs(items: seq<Json>, steps: seq<string>, v: Json)
    ensures multiset(KeepSteps(items, steps))[v] == if Matches(v, steps) then 0 else multiset(items)[v]
  {
    if items != [] {
      var front, last := items[..|items| - 1], items[|items| - 1];
      KeepStepsIs(front, steps, v);
      assert items == front + [last];
    }
  }

  lemma {:induction false} KeepStepsTwice(items: seq<Json>, steps: seq<string>)
    ensures KeepSteps(KeepSteps(items, steps), steps) == KeepSteps(items, steps)
  {
    if items != [] {
      var front, last := items[..|items| - 1], items[|items| - 1];
      KeepStepsTwice(front, steps);
      var kept := KeepSteps(front, steps);
      if Matches(last, steps) {
        assert kept + [] == kept;
      } else {
        assert (kept + [last])[..|kept|] == kept;
      }
    }
  }

  function FieldSet(fields: seq<string>): (names: set<string>)
    ensures forall f :: f in names <==> f in fields
  {
    set f | f in fields
  }

  const COMPLETED := "completed_steps"

  /** The `data` object without the given steps, and how many were removed; None if
      the steps are not in an array. */
  function DropSteps(data: map<string, Json>, steps: seq<string>): Option<(map<string, Json>, nat)> {
    if steps == [] || COMPLETED !in data then Some((data, 0))
    else if !data[COMPLETED].Arr? then None
    else
      var items := data[COMPLETED].items;
      var kept := KeepSteps(items, steps);
      Some((data[COMPLETED := Arr(kept)], |items| - |kept|))
  }

  function ResetOf(v: Json, steps: seq<string>, fields: seq<string>): Maybe<Reset> {
    if !v.Obj? || "data" !in v.m || !v.m["data"].Obj? then Refused(ShapeInvalid)
    else
      var d := DropSteps(v.m["data"].m, steps);
      if d.None? then Refused(ShapeInvalid)
      else
        var left := d.value.0 - FieldSet(fields);
        Done(Reset(Obj(v.m["data" := Obj(left)]), d.value.1, |d.value.0.Keys * FieldSet(fields)|))
  }

  // ----- what a reset does to the value -----

  /** Fields of `data` other than the named ones and the step list are untouched, and
      so is everything beside `data`; the field count is what disappeared. */
  lemma ResetKeepsRest(v: Json, steps: seq<string>, fields: seq<string>, k: string)
    requires ResetOf(v, steps, fields).Done?
    ensures var r := ResetOf(v, steps, fields).value;
            var was, now := v.m["data"].m, r.value.m["data"].m;
            && (k in now <==> k in was && k !in fields)
            && (k in now && k != COMPLETED ==> now[k] == was[k])
            && r.fieldsRemoved == |was| - |now|
            && (k != "data" ==> (k in r.value.m <==> k in v.m) && (k in v.m ==> r.value.m[k] == v.m[k]))
  {
    hide KeepSteps;
    var was := v.m["data"].m;
    var dropped := DropSteps(was, steps).value.0;
    var gone := FieldSet(fields);
    assert dropped.Keys == was.Keys;
    KeyCount(dropped, gone);
    KeyCount(was, {});
  }

  lemma KeyCount(m: map<string, Json>, gone: set<string>)
    ensures |m.Keys * gone| == |m| - |m - gone| && |m| == |m.Keys|
  {
    assert (m - gone).Keys == m.Keys - gone;
    assert m.Keys == (m.Keys - gone) + (m.Keys * gone);
    assert |m| == |m.Keys| && |m - gone| == |(m - gone).Keys|;
  }

  /** Resetting again removes nothing and leaves the value as it is. */
  lemma ResetTwice(v: Json, steps: seq<string>, fields: seq<string>)
    requires ResetOf(v, steps, fields).Done?
    ensures var r := ResetOf(v, steps, fields).value;
            ResetOf(r.value, steps, fields) == Done(Reset(r.value, 0, 0))
  {
    hide KeepSteps;
    var was := v.m["data"].m;
    var dropped := DropSteps(was, steps).value.0;
    var left := dropped - FieldSet(fields);
    if steps != [] && COMPLETED in was {
      KeepStepsTwice(was[COMPLETED].items, steps);
    }
    assert DropSteps(left, steps) == Some((left, 0)) by {
      if steps != [] && COMPLETED in left {
        assert left[COMPLETED := left[COMPLETED]] == left;
      }
    }
    assert left - FieldSet(fields) == left;
    assert left.Keys * FieldSet(fields) == {};
    var r := ResetOf(v, steps, fields).value;
    assert r.value.m["data" := Obj(left)] == r.value.m;
  }

  // ----- the procedure -----

  /** How the storage behaves: what a copy or a write has put down half-way, and
      whether it then fails. */
  datatype ResetIo = ResetIo(bakPart: string, copyOk: bool, tmpPart: string, write: Io)

  /** Whatever moment the process dies at: the live file is the whole original, or
      the whole result with the original in the backup; no other store file differs. */
  ghost predicate CrashSafe(d: Disk, start: Disk, path: Path, result: string)
    requires Live(path) in start
  {
    && Live(path) in d
    && (d[Live(path)] == start[Live(path)]
        || (d[Live(path)] == result && Bak(path) in d && d[Bak(path)] == start[Live(path)]))
    && forall f: File | f.path != path :: (f in d <==> f in start) && (f in d ==> d[f] == start[f])
  }

  /** The text a reset writes. */
  function ResultText(text: string, steps: seq<string>, fields: seq<string>, codec: JsonCodec): Maybe<string> {
    var v := codec.parse(text);
    if v.None? then Refused(BadText)
    else
      var r := ResetOf(v.value, steps, fields);
      if r.Refused? then Refused(r.error) else Done(codec.render(r.value.value))
  }

  method DropStepsInPlace(data: map<string, Json>, steps: seq<string>) returns (r: Option<(map<string, Json>, nat)>)
    ensures r == DropSteps(data, steps)
  {
    if steps == [] || COMPLETED !in data {
      return Some((data, 0));
    }
    if !data[COMPLETED].Arr? {
      return None;
    }
    var items, kept: seq<Json> := data[COMPLETED].items, [];
    for i := 0 to |items|
      invariant kept == KeepSteps(items[..i], steps)
    {
      assert items[..i + 1][..i] == items[..i];
      if !Matches(items[i], steps) {
        kept := kept + [items[i]];
      }
    }
    assert items[..|items|] == items;
    r := Some((data[COMPLETED := Arr(kept)], |items| - |kept|));
  }

  lemma FieldSnoc(fields: seq<string>, i: nat)
    requires i < |fields|
    ensures FieldSet(fields[..i + 1]) == FieldSet(fields[..i]) + {fields[i]}
  {
    assert fields[..i + 1] == fields[..i] + [fields[i]];
  }

  lemma DropOne(data: map<string, Json>, seen: set<string>, f: string)
    ensures data - (seen + {f}) == (data - seen) - {f}
    ensures |data.Keys * (seen + {f})| == |data.Keys * seen| + if f in data - seen then 1 else 0
  {
    if f in data - seen {
      assert data.Keys * (seen + {f}) == data.Keys * seen + {f};
    } else {
      assert data.Keys * (seen + {f}) == data.Keys * seen;
    }
  }

  /** Remove the fields one by one; a field named twice is counted once. */
  method DropFieldsInPlace(data: map<string, Json>, fields: seq<string>) returns (left: map<string, Json>, removed: nat)
    ensures left == data - FieldSet(fields) && removed == |data.Keys * FieldSet(fields)|
  {
    left, removed := data, 0;
    for i := 0 to |fields|
      invariant left == data - FieldSet(fields[..i])
      invariant removed == |data.Keys * FieldSet(fields[..i])|
    {
      hide FieldSet;
      FieldSnoc(fields, i);
      DropOne(data, FieldSet(fields[..i]), fields[i]);
      if fields[i] in left {
        removed := removed + 1;
      }
      left := left - {fields[i]};
    }
    assert fields[..|fields|] == fields;
  }

  method ResetValue(v: Json, steps: seq<string>, fields: seq<string>) returns (r: Maybe<Reset>)
    ensures r == ResetOf(v, steps, fields)
  {
    if !v.Obj? || "data" !in v.m || !v.m["data"].Obj? {
      return Refused(ShapeInvalid);
    }
    var dropped := DropStepsInPlace(v.m["data"].m, steps);
    if dropped.None? {
      return Refused(ShapeInvalid);
    }
    var left, removed := DropFieldsInPlace(dropped.value.0, fields);
    r := Done(Reset(Obj(v.m["data" := Obj(left)]), dropped.value.1, removed));
  }

  ghost predicate AllSafe(trace: seq<Disk>, start: Disk, path: Path, result: string)
    requires Live(path) in start
  {
    forall i | 0 <= i < |trace| :: CrashSafe(trace[i], start, path, result)
  }

  /** One file operation: a write to the backup or the staging copy, or the rename. */
  ghost predicate OneStep(a: Disk, b: Disk, path: Path) {
    || (Bak(path) in b && b == a[Bak(path) := b[Bak(path)]])
    || (Tmp(path) in b && b == a[Tmp(path) := b[Tmp(path)]])
    || (Tmp(path) in a && b == a[Live(path) := a[Tmp(path)]] - {Tmp(path)})
  }

  ghost predicate Steps(trace: seq<Disk>, path: Path) {
    forall i | 0 <= i < |trace| - 1 :: OneStep(trace[i], trace[i + 1], path)
  }

  lemma StepsJoin(a: seq<Disk>, b: seq<Disk>, path: Path)
    requires Steps(a, path) && Steps(b, path)
    requires a != [] && b != [] ==> OneStep(a[|a| - 1], b[0], path)
    ensures Steps(a + b, path)
  {
    hide OneStep;
    var all := a + b;
    forall i | 0 <= i < |all| - 1
      ensures OneStep(all[i], all[i + 1], path)
    {
      if i < |a| - 1 {
        assert OneStep(a[i], a[i + 1], path);
      } else if i >= |a| {
        assert OneStep(b[i - |a|], b[i - |a| + 1], path);
      }
    }
  }

  lemma SafeSnoc(trace: seq<Disk>, d: Disk, start: Disk, path: Path, result: string)
    requires Live(path) in start && AllSafe(trace, start, path, result) && CrashSafe(d, start, path, result)
    ensures AllSafe(trace + [d], start, path, result)
  {
    hide CrashSafe;
  }

  /** Writing beside the live file is safe while it is the original. */
  lemma SideWriteIsSafe(d: Disk, start: Disk, path: Path, result: string, f: File, text: string)
    requires Live(path) in start && CrashSafe(d, start, path, result) && (f == Tmp(path) || f == Bak(path))
    requires d[Live(path)] == start[Live(path)]
    ensures CrashSafe(d[f := text], start, path, result)
  {
  }

  lemma RenameIsSafe(d: Disk, start: Disk, path: Path, result: string)
    requires Live(path) in start && CrashSafe(d, start, path, result)
    requires Bak(path) in d && d[Bak(path)] == start[Live(path)]
    ensures CrashSafe(d[Live(path) := result] - {Tmp(path)}, start, path, result)
  {
  }

  /** Copy the live file to the backup. */
  method Backup(store: JsonFileStore, path: Path, io: ResetIo, ghost result: string)
      returns (ghost trace: seq<Disk>)
    requires Live(path) in store.disk
    modifies store`disk
    ensures trace != [] && trace[0] == old(store.disk) && trace[|trace| - 1] == store.disk
    ensures AllSafe(trace, old(store.disk), path, result) && Steps(trace, path)
    ensures store.disk == old(store.disk)[Bak(path) := if io.copyOk then old(store.disk)[Live(path)] else io.bakPart]
  {
    hide CrashSafe;
    ghost var start := store.disk;
    trace := [start];
    assert CrashSafe(start, start, path, result) by { StartIsSafe(start, path, result); }
    store.disk := store.disk[Bak(path) := io.bakPart];
    SideWriteIsSafe(start, start, path, result, Bak(path), io.bakPart);
    SafeSnoc(trace, store.disk, start, path, result);
    StepsJoin(trace, [store.disk], path);
    trace := trace + [store.disk];
    if io.copyOk {
      SideWriteIsSafe(store.disk, start, path, result, Bak(path), store.disk[Live(path)]);
      store.disk := store.disk[Bak(path) := store.disk[Live(path)]];
      SafeSnoc(trace, store.disk, start, path, result);
      StepsJoin(trace, [store.disk], path);
      trace := trace + [store.disk];
    }
  }

  lemma StartIsSafe(start: Disk, path: Path, result: string)
    requires Live(path) in start
    ensures CrashSafe(start, start, path, result)
  {
  }

  /** Stage the text and rename it over the live file. */
  method Replace(store: JsonFileStore, path: Path, text: string, io: ResetIo, ghost start: Disk)
      returns (ghost trace: seq<Disk>)
    requires Live(path) in start && store.disk == start[Bak(path) := start[Live(path)]]
    modifies store`disk
    ensures trace != [] && trace[|trace| - 1] == store.disk && AllSafe(trace, start, path, text)
    ensures OneStep(old(store.disk), trace[0], path) && Steps(trace, path)
    ensures io.write.Works? ==> store.disk == old(store.disk)[Live(path) := text] - {Tmp(path)}
    ensures !io.write.Works? ==> Live(path) in store.disk && store.disk[Live(path)] == start[Live(path)]
  {
    hide CrashSafe;
    StartIsSafe(start, path, text);
    SideWriteIsSafe(start, start, path, text, Bak(path), start[Live(path)]);
    SideWriteIsSafe(store.disk, start, path, text, Tmp(path), io.tmpPart);
    store.disk := store.disk[Tmp(path) := io.tmpPart];
    trace := [store.disk];
    if io.write.WriteFails? {
      return trace;
    }
    SideWriteIsSafe(store.disk, start, path, text, Tmp(path), text);
    store.disk := store.disk[Tmp(path) := text];
    SafeSnoc(trace, store.disk, start, path, text);
    StepsJoin(trace, [store.disk], path);
    trace := trace + [store.disk];
    if io.write.RenameFails? {
      return trace;
    }
    RenameIsSafe(store.disk, start, path, text);
    store.disk := store.disk[Live(path) := store.disk[Tmp(path)]] - {Tmp(path)};
    SafeSnoc(trace, store.disk, start, path, text);
    StepsJoin(trace, [store.disk], path);
    trace := trace + [store.disk];
  }

  lemma SafeJoin(a: seq<Disk>, b: seq<Disk>, start: Disk, path: Path, result: string)
    requires Live(path) in start && AllSafe(a, start, path, result) && AllSafe(b, start, path, result)
    ensures AllSafe(a + b, start, path, result)
  {
    hide CrashSafe;
  }

  /** What a completed reset leaves: the result in place, the text it replaced in the
      backup, and nothing staged. */
  ghost predicate Completed(before: Disk, after: Disk, path: Path, steps: seq<string>, fields: seq<string>,
      codec: JsonCodec)
  {
    && Live(path) in before && ResultText(before[Live(path)], steps, fields, codec).Done?
    && after == before[Bak(path) := before[Live(path)]]
                      [Live(path) := ResultText(before[Live(path)], steps, fields, codec).value] - {Tmp(path)}
  }

  /** `trace` holds every state the disk passes through, one file operation apart. */
  method ResetDispatchedWithBackup(store: JsonFileStore, namespace: string, key: string, steps: seq<string>,
      fields: seq<string>, io: ResetIo) returns (r: Maybe<Reset>, ghost trace: seq<Disk>)
    modifies store`disk
    ensures trace != [] && trace[0] == old(store.disk) && trace[|trace| - 1] == store.disk
    ensures !IsSafeSegment(namespace) || !IsSafeSegment(key) ==>
              r == Refused(UnsafeSegment) && store.disk == old(store.disk)
    ensures IsSafeSegment(namespace) && IsSafeSegment(key) && Live(Dispatched(namespace, key)) !in old(store.disk) ==>
              r == Refused(KeyNotFound) && store.disk == old(store.disk)
    ensures IsSafeSegment(namespace) && IsSafeSegment(key) && Live(Dispatched(namespace, key)) in old(store.disk) ==>
              var start, path := old(store.disk), Dispatched(namespace, key);
              var text := ResultText(start[Live(path)], steps, fields, store.codec);
              && Steps(trace, path) && AllSafe(trace, start, path, if text.Done? then text.value else "")
              && (r.Done? <==> io.copyOk && text.Done? && io.write.Works?)
              && (r.Done? ==>
                    && r == ResetOf(store.codec.parse(start[Live(path)]).value, steps, fields)
                    && Completed(start, store.disk, path, steps, fields, store.codec))
              && (r.Refused? ==>
                    && Live(path) in store.disk && store.disk[Live(path)] == start[Live(path)]
                    && r.error == if !io.copyOk then BackupFailed else if text.Refused? then text.error
                                  else WriteFailed)
  {
    trace := [store.disk];
    if !IsSafeSegment(namespace) || !IsSafeSegment(key) {
      return Refused(UnsafeSegment), trace;
    }
    var path := Dispatched(namespace, key);
    if Live(path) !in store.disk {
      return Refused(KeyNotFound), trace;
    }
    hide IsSafeSegment, ResetOf, CrashSafe, AllSafe, OneStep, Steps;
    ghost var start := store.disk;
    ghost var planned := ResultText(start[Live(path)], steps, fields, store.codec);
    trace := Backup(store, path, io, if planned.Done? then planned.value else "");
    if !io.copyOk {
      return Refused(BackupFailed), trace;
    }
    var parsed := store.codec.parse(store.disk[Live(path)]);
    if parsed.None? {
      return Refused(BadText), trace;
    }
    var reset := ResetValue(parsed.value, steps, fields);
    if reset.Refused? {
      return reset, trace;
    }
    ghost var rest := Replace(store, path, store.codec.render(reset.value.value), io, start);
    SafeJoin(trace, rest, start, path, planned.value);
    StepsJoin(trace, rest, path);
    trace := trace + rest;
    r := if io.write.Works? then reset else Refused(WriteFailed);
  }

  /** A second reset writes the live file the first one wrote. */
  lemma SecondResetSameFile(text: string, steps: seq<string>, fields: seq<string>, codec: JsonCodec)
    requires Inverse(codec) && ResultText(text, steps, fields, codec).Done?
    ensures var once := ResultText(text, steps, fields, codec).value;
            ResultText(once, steps, fields, codec) == Done(once)
  {
    hide ResetOf;
    ResetTwice(codec.parse(text).value, steps, fields);
  }

  /** After two completed resets, the same one twice or not, the backup holds what the
      first one wrote. So it is still the original exactly when the first reset wrote
      the very text it found; and the same reset twice leaves the live file alone. */
  lemma SecondResetBackup(original: Disk, once: Disk, twice: Disk, path: Path, steps: seq<string>,
      fields: seq<string>, steps': seq<string>, fields': seq<string>, codec: JsonCodec)
    requires Inverse(codec)
    requires Completed(original, once, path, steps, fields, codec)
    requires Completed(once, twice, path, steps', fields', codec)
    ensures Bak(path) in once && once[Bak(path)] == original[Live(path)]
    ensures Bak(path) in twice && Done(twice[Bak(path)]) == ResultText(original[Live(path)], steps, fields, codec)
    ensures twice[Bak(path)] == original[Live(path)]
       <==> ResultText(original[Live(path)], steps, fields, codec) == Done(original[Live(path)])
    ensures steps' == steps && fields' == fields ==> twice[Live(path)] == once[Live(path)]
  {
    hide ResultText;
    SecondResetSameFile(original[Live(path)], steps, fields, codec);
  }

  /** A file with a field to drop: the first reset keeps the original in the backup,
      and after the second it is nowhere. */
  lemma OriginalIsLost(original: Disk, once: Disk, twice: Disk, path: Path, codec: JsonCodec)
    requires Inverse(codec)
    requires original == map[Live(path) := codec.render(Obj(map["data" := Obj(map["note" := Null])]))]
    requires Completed(original, once, path, [], ["note"], codec) && Completed(once, twice, path, [], ["note"], codec)
    ensures once[Bak(path)] == original[Live(path)]
    ensures forall f | f in twice :: twice[f] != original[Live(path)]
  {
    hide *;
    var v, w := Obj(map["data" := Obj(map["note" := Null])]), Obj(map["data" := Obj(map[])]);
    NoteIsDropped(v, w);
    RendersApart(v, w, codec);
    ResultOf(v, w, [], ["note"], codec);
    SecondResetBackup(original, once, twice, path, [], ["note"], [], ["note"], codec);
    ReadBackDisks(original, once, twice, path, [], ["note"], codec);
  }

  lemma NoteIsDropped(v: Json, w: Json)
    requires v == Obj(map["data" := Obj(map["note" := Null])]) && w == Obj(map["data" := Obj(map[])])
    ensures v != w && ResetOf(v, [], ["note"]).Done? && ResetOf(v, [], ["note"]).value.value == w
  {
    assert FieldSet(["note"]) == {"note"};
    assert map["note" := Null] - {"note"} == map[];
    assert v.m["data" := Obj(map[])] == w.m;
    assert "note" in v.m["data"].m && "note" !in w.m["data"].m;
  }

  lemma RendersApart(v: Json, w: Json, codec: JsonCodec)
    requires Inverse(codec) && v != w
    ensures codec.render(v) != codec.render(w)
  {
    assert codec.parse(codec.render(v)) == Some(v) && codec.parse(codec.render(w)) == Some(w);
  }

  lemma ResultOf(v: Json, w: Json, steps: seq<string>, fields: seq<string>, codec: JsonCodec)
    requires Inverse(codec) && ResetOf(v, steps, fields).Done? && ResetOf(v, steps, fields).value.value == w
    ensures ResultText(codec.render(v), steps, fields, codec) == Done(codec.render(w))
  {
    hide ResetOf;
  }

  lemma ReadBackDisks(original: Disk, once: Disk, twice: Disk, path: Path, steps: seq<string>, fields: seq<string>,
      codec: JsonCodec)
    requires original.Keys == {Live(path)} && Completed(original, once, path, steps, fields, codec)
    requires Completed(once, twice, path, steps, fields, codec)
    ensures twice.Keys == {Live(path), Bak(path)} && Live(path) in once
    ensures Done(once[Live(path)]) == ResultText(original[Live(path)], steps, fields, codec)
  {
    hide ResultText;
  }
}
