/** The two-layer key/value store: a file per dispatched key over one file per
    namespace. */
module StateStore {
  import opened Json
  import opened Text

  // ----- where a key lives -----

  predicate SafeChar(c: char) {
    'a' <= c <= 'z' || 'A' <= c <= 'Z' || '0' <= c <= '9' || c == '_' || c == '-' || c == '.'
  }

  predicate IsSafeSegment(s: string) {
    s != "" && s != "." && s != ".." && !IsInfix("..", s) && forall i | 0 <= i < |s| :: SafeChar(s[i])
  }

  datatype Path = Legacy(ns: string) | Dispatched(prefix: string, id: string)

  /** A store file, its staging copy and its backup. */
  datatype File = Live(path: Path) | Tmp(path: Path) | Bak(path: Path)

  type Disk = map<File, string>

  function ColonAt(key: string): (n: nat)
    ensures n <= |key| && (n < |key| ==> key[n] == ':') && forall i | 0 <= i < n :: key[i] != ':'
  {
    if key == "" || key[0] == ':' then 0 else 1 + ColonAt(key[1..])
  }

  function DispatchPath(key: string): Option<Path> {
    var n := ColonAt(key);
    if n == |key| || !IsSafeSegment(key[..n]) || !IsSafeSegment(key[n + 1..]) then None
    else Some(Dispatched(key[..n], key[n + 1..]))
  }

  /** Dispatched keys are exactly prefix:id of two safe segments, and the file names
      the key: no two keys share one. */
  lemma DispatchIsExact(key: string, prefix: string, id: string)
    ensures DispatchPath(key) == Some(Dispatched(prefix, id))
       <==> key == prefix + ":" + id && IsSafeSegment(prefix) && IsSafeSegment(id)
  {
    hide IsInfix;
    var n := ColonAt(key);
    if key == prefix + ":" + id && IsSafeSegment(prefix) && IsSafeSegment(id) {
      assert key[|prefix|] == ':';
      forall i | 0 <= i < |prefix|
        ensures key[i] != ':'
      {
        assert SafeChar(prefix[i]);
      }
      assert n == |prefix|;
      assert key[..n] == prefix && key[n + 1..] == id;
    } else if n < |key| {
      assert key == key[..n] + ":" + key[n + 1..];
    }
  }

  lemma DispatchIsInjective(a: string, b: string)
    requires DispatchPath(a).Some? && DispatchPath(a) == DispatchPath(b)
    ensures a == b
  {
    hide *;
    var p := DispatchPath(a).value;
    DispatchedOnly(a);
    DispatchIsExact(a, p.prefix, p.id);
    DispatchIsExact(b, p.prefix, p.id);
  }

  lemma DispatchedOnly(key: string)
    ensures DispatchPath(key).Some? ==> DispatchPath(key).value.Dispatched?
  {
  }

  // ----- reading -----

  function ReadLegacy(disk: Disk, ns: string, codec: JsonCodec): Result<map<string, Json>> {
    if !ValidName(ns) then Err("Invalid namespace")
    else if Live(Legacy(ns)) !in disk then Ok(map[])
    else
      var v := codec.parse(disk[Live(Legacy(ns))]);
      if v.Some? && v.value.Obj? then Ok(v.value.m) else Err("Failed to parse state")
  }

  function ReadDispatched(disk: Disk, path: Path, codec: JsonCodec): Result<Option<Json>> {
    if Live(path) !in disk then Ok(None)
    else
      var v := codec.parse(disk[Live(path)]);
      if v.Some? then Ok(v) else Err("Failed to parse dispatched state")
  }

  predicate InFile(disk: Disk, key: string) {
    DispatchPath(key).Some? && Live(DispatchPath(key).value) in disk
  }

  function LegacyEntry(disk: Disk, ns: string, key: string, codec: JsonCodec): Result<Option<Json>> {
    var m := ReadLegacy(disk, ns, codec);
    if m.Err? then Err(m.error) else Ok(if key in m.value then Some(m.value[key]) else None)
  }

  /** The logical map: a key's own file overrides its entry in the namespace file. */
  function Lookup(disk: Disk, ns: string, key: string, codec: JsonCodec): Result<Option<Json>> {
    if InFile(disk, key) then ReadDispatched(disk, DispatchPath(key).value, codec)
    else LegacyEntry(disk, ns, key, codec)
  }

  /** `has` does not parse a key's own file. */
  function HasKey(disk: Disk, ns: string, key: string, codec: JsonCodec): Result<bool> {
    if InFile(disk, key) then Ok(true)
    else
      var e := LegacyEntry(disk, ns, key, codec);
      if e.Err? then Err(e.error) else Ok(e.value.Some?)
  }

  /** `has` and `get` agree on every key `get` can read. */
  lemma HasIffGet(disk: Disk, ns: string, key: string, codec: JsonCodec)
    requires Lookup(disk, ns, key, codec).Ok?
    ensures HasKey(disk, ns, key, codec) == Ok(Lookup(disk, ns, key, codec).value.Some?)
  {
    hide IsInfix;
  }

  // ----- writing -----

  /** How the storage behaves during one write: a write that fails may leave part
      of the text in the staging copy. */
  datatype Io = Works | WriteFails(partial: string) | RenameFails

  function Save(disk: Disk, path: Path, text: string, io: Io): Disk {
    match io
    case Works => disk[Live(path) := text] - {Tmp(path)}
    case WriteFails(partial) => disk[Tmp(path) := partial]
    case RenameFails => disk[Tmp(path) := text]
  }

  predicate CanPut(disk: Disk, ns: string, key: string, codec: JsonCodec) {
    DispatchPath(key).Some? || ReadLegacy(disk, ns, codec).Ok?
  }

  /** A dispatch-shaped key is written to its own file and never to the namespace's. */
  function Put(disk: Disk, ns: string, key: string, v: Json, io: Io, codec: JsonCodec): Disk
    requires CanPut(disk, ns, key, codec)
  {
    var d := DispatchPath(key);
    if d.Some? then Save(disk, d.value, codec.render(v), io)
    else Save(disk, Legacy(ns), codec.render(Obj(ReadLegacy(disk, ns, codec).value[key := v])), io)
  }

  datatype Outcome<T> = Outcome(disk: Disk, result: Result<T>)

  function SetOutcome(disk: Disk, ns: string, key: string, v: Json, io: Io, codec: JsonCodec): Outcome<()> {
    if !CanPut(disk, ns, key, codec) then Outcome(disk, Err(ReadLegacy(disk, ns, codec).error))
    else Outcome(Put(disk, ns, key, v, io, codec), if io.Works? then Ok(()) else Err("write failed"))
  }

  function SetNxOutcome(disk: Disk, ns: string, key: string, v: Json, io: Io, codec: JsonCodec): Outcome<bool> {
    var h := HasKey(disk, ns, key, codec);
    if h.Err? then Outcome(disk, h)
    else if h.value then Outcome(disk, Ok(false))
    else Outcome(Put(disk, ns, key, v, io, codec), if io.Works? then Ok(true) else Err("write failed"))
  }

  lemma SumIsRatio(x: F64, y: F64, z: real)
    requires z == x + y
    ensures exists m: int, d: int :: IsRatio(z, m, d)
  {
    var m, d :| IsRatio(x, m, d);
    var n, e :| IsRatio(y, n, e);
    RatioSum(x, m, d, y, n, e);
  }

  lemma RatioSum(x: real, m: int, d: int, y: real, n: int, e: int)
    requires IsRatio(x, m, d) && IsRatio(y, n, e)
    ensures IsRatio(x + y, m * e + n * d, d * e)
  {
    var dr, er := d as real, e as real;
    assert (d * e) as real == dr * er;
    calc {
      (x + y) * (dr * er);
    ==
      (x * dr) * er + (y * er) * dr;
    ==
      (m as real) * er + (n as real) * dr;
    ==
      (m * e + n * d) as real;
    }
    assert d * e != 0;
  }

  function AddF64(x: F64, y: F64): (z: F64)
    ensures z == x + y
  {
    SumIsRatio(x, y, x + y);
    x + y
  }

  function NumberOf(v: Json): F64
    requires IsNumber(v)
  {
    if v.Int? then WholeF64(v.i) else v.f
  }

  function IncrOutcome(disk: Disk, ns: string, key: string, delta: F64, default: F64, io: Io, codec: JsonCodec):
      Outcome<F64> {
    var cur := Lookup(disk, ns, key, codec);
    if cur.Err? then Outcome(disk, Err(cur.error))
    else if cur.value.Some? && !IsNumber(cur.value.value) then Outcome(disk, Err("value is not a number"))
    else
      var base := if cur.value.Some? then NumberOf(cur.value.value) else default;
      var sum := AddF64(base, delta);
      Outcome(Put(disk, ns, key, Float(sum), io, codec), if io.Works? then Ok(sum) else Err("write failed"))
  }

  /** Phase one of a delete: remove the key's own file; phase two: remove its entry
      in the namespace file. */
  function DeleteEntryOutcome(disk: Disk, ns: string, key: string, io: Io, codec: JsonCodec): Outcome<bool> {
    var m := ReadLegacy(disk, ns, codec);
    if m.Err? then Outcome(disk, Err(m.error))
    else if key !in m.value then Outcome(disk, Ok(false))
    else
      Outcome(Save(disk, Legacy(ns), codec.render(Obj(m.value - {key})), io),
        if io.Works? then Ok(true) else Err("write failed"))
  }

  function DeleteOutcome(disk: Disk, ns: string, key: string, io: Io, codec: JsonCodec): Outcome<bool> {
    if !InFile(disk, key) then DeleteEntryOutcome(disk, ns, key, io, codec)
    else if io.Works? then Outcome(disk - {Live(DispatchPath(key).value)}, Ok(true))
    else Outcome(disk, Err("Failed to delete dispatched state"))
  }

  // ----- the object -----

  class JsonFileStore {
    const codec: JsonCodec
    var disk: Disk

    constructor (codec: JsonCodec)
      ensures this.codec == codec && disk == map[]
    {
      this.codec, disk := codec, map[];
    }

    method Load(ns: string) returns (r: Result<map<string, Json>>)
      ensures r == ReadLegacy(disk, ns, codec)
    {
      if !ValidName(ns) {
        return Err("Invalid namespace");
      }
      if Live(Legacy(ns)) !in disk {
        return Ok(map[]);
      }
      var v := codec.parse(disk[Live(Legacy(ns))]);
      r := if v.Some? && v.value.Obj? then Ok(v.value.m) else Err("Failed to parse state");
    }

    /** Stage the text beside the file, then rename it into place. */
    method SaveFile(path: Path, text: string, io: Io) returns (ok: bool)
      modifies this`disk
      ensures disk == Save(old(disk), path, text, io) && ok == io.Works?
    {
      match io {
        case WriteFails(partial) =>
          disk := disk[Tmp(path) := partial];
          ok := false;
        case RenameFails =>
          disk := disk[Tmp(path) := text];
          ok := false;
        case Works =>
          disk := disk[Tmp(path) := text];
          disk := disk[Live(path) := disk[Tmp(path)]];
          disk := disk - {Tmp(path)};
          assert disk == Save(old(disk), path, text, io);
          ok := true;
      }
    }

    method Get(ns: string, key: string) returns (r: Result<Option<Json>>)
      ensures r == Lookup(disk, ns, key, codec)
    {
      hide IsSafeSegment, ValidName, DispatchPath;
      var d := DispatchPath(key);
      if d.Some? {
        var v := ReadDispatched(disk, d.value, codec);
        if v.Err? || v.value.Some? {
          return v;
        }
      }
      var state := Load(ns);
      if state.Err? {
        return Err(state.error);
      }
      r := Ok(if key in state.value then Some(state.value[key]) else None);
    }

    method Has(ns: string, key: string) returns (r: Result<bool>)
      ensures r == HasKey(disk, ns, key, codec)
    {
      hide IsSafeSegment, ValidName, DispatchPath;
      var d := DispatchPath(key);
      if d.Some? && Live(d.value) in disk {
        return Ok(true);
      }
      var state := Load(ns);
      if state.Err? {
        return Err(state.error);
      }
      r := Ok(key in state.value);
    }

    method Set(ns: string, key: string, v: Json, io: Io) returns (r: Result<()>)
      modifies this`disk
      ensures Outcome(disk, r) == SetOutcome(old(disk), ns, key, v, io, codec)
    {
      hide IsSafeSegment, ValidName, DispatchPath, Save;
      var d := DispatchPath(key);
      if d.Some? {
        var ok := SaveFile(d.value, codec.render(v), io);
        return if ok then Ok(()) else Err("write failed");
      }
      var state := Load(ns);
      if state.Err? {
        return Err(state.error);
      }
      var ok := SaveFile(Legacy(ns), codec.render(Obj(state.value[key := v])), io);
      r := if ok then Ok(()) else Err("write failed");
    }

    method SetNx(ns: string, key: string, v: Json, io: Io) returns (r: Result<bool>)
      modifies this`disk
      ensures Outcome(disk, r) == SetNxOutcome(old(disk), ns, key, v, io, codec)
    {
      hide IsSafeSegment, ValidName, DispatchPath, Save;
      var d := DispatchPath(key);
      if d.Some? && Live(d.value) in disk {
        return Ok(false);
      }
      var state := Load(ns);
      if state.Err? {
        return Err(state.error);
      }
      if key in state.value {
        return Ok(false);
      }
      var ok;
      if d.Some? {
        ok := SaveFile(d.value, codec.render(v), io);
      } else {
        ok := SaveFile(Legacy(ns), codec.render(Obj(state.value[key := v])), io);
      }
      r := if ok then Ok(true) else Err("write failed");
    }

    method Incr(ns: string, key: string, delta: F64, default: F64, io: Io) returns (r: Result<F64>)
      modifies this`disk
      ensures Outcome(disk, r) == IncrOutcome(old(disk), ns, key, delta, default, io, codec)
    {
      hide IsSafeSegment, ValidName, DispatchPath, Save;
      var d := DispatchPath(key);
      var found: Option<Json>, state: map<string, Json> := None, map[];
      if d.Some? {
        var v := ReadDispatched(disk, d.value, codec);
        if v.Err? {
          return Err(v.error);
        }
        found := v.value;
      }
      if found.None? {
        var loaded := Load(ns);
        if loaded.Err? {
          return Err(loaded.error);
        }
        state := loaded.value;
        found := if key in state then Some(state[key]) else None;
      }
      if found.Some? && !IsNumber(found.value) {
        return Err("value is not a number");
      }
      var sum := AddF64(if found.Some? then NumberOf(found.value) else default, delta);
      var ok;
      if d.Some? {
        ok := SaveFile(d.value, codec.render(Float(sum)), io);
      } else {
        ok := SaveFile(Legacy(ns), codec.render(Obj(state[key := Float(sum)])), io);
      }
      r := if ok then Ok(sum) else Err("write failed");
    }

    method Delete(ns: string, key: string, io: Io) returns (r: Result<bool>)
      modifies this`disk
      ensures Outcome(disk, r) == DeleteOutcome(old(disk), ns, key, io, codec)
    {
      hide IsSafeSegment, ValidName, DispatchPath, Save;
      var d := DispatchPath(key);
      if d.Some? && Live(d.value) in disk {
        if !io.Works? {
          return Err("Failed to delete dispatched state");
        }
        disk := disk - {Live(d.value)};
        return Ok(true);
      }
      var state := Load(ns);
      if state.Err? {
        return Err(state.error);
      }
      if key !in state.value {
        return Ok(false);
      }
      var ok := SaveFile(Legacy(ns), codec.render(Obj(state.value - {key})), io);
      r := if ok then Ok(true) else Err("write failed");
    }

    /** The keys of the namespace file; keys with a file of their own are not listed. */
    method Keys(ns: string) returns (r: Result<set<string>>)
      ensures r.Ok? <==> ReadLegacy(disk, ns, codec).Ok?
      ensures r.Ok? ==> forall key :: key in r.value <==> LegacyEntry(disk, ns, key, codec).value.Some?
    {
      var state := Load(ns);
      if state.Err? {
        return Err(state.error);
      }
      r := Ok(state.value.Keys);
    }
  }

  // ----- the store is one map -----

  /** Two names for one entry: a dispatch-shaped key is the same in every namespace. */
  predicate SameEntry(ns: string, key: string, ns': string, key': string) {
    key' == key && (DispatchPath(key).Some? || ns' == ns)
  }

  /** A successful write changes the value of its own key and of nothing else. */
  lemma PutIsUpdate(disk: Disk, ns: string, key: string, v: Json, codec: JsonCodec, ns': string, key': string)
    requires Inverse(codec) && CanPut(disk, ns, key, codec)
    ensures Lookup(Put(disk, ns, key, v, Works, codec), ns', key', codec)
         == if SameEntry(ns, key, ns', key') then Ok(Some(v)) else Lookup(disk, ns', key', codec)
  {
    hide IsSafeSegment, ValidName, DispatchPath;
    DispatchedOnly(key);
    DispatchedOnly(key');
    if DispatchPath(key).Some? && DispatchPath(key) == DispatchPath(key') {
      DispatchIsInjective(key, key');
    }
    var after := Put(disk, ns, key, v, Works, codec);
    if DispatchPath(key).None? {
      var m := ReadLegacy(disk, ns, codec).value[key := v];
      assert codec.parse(codec.render(Obj(m))) == Some(Obj(m));
      ReadLegacyIsValid(disk, ns, codec);
    }
  }

  lemma ReadLegacyIsValid(disk: Disk, ns: string, codec: JsonCodec)
    requires ReadLegacy(disk, ns, codec).Ok?
    ensures ValidName(ns)
  {
  }

  /** A write that fails changes no value. */
  lemma FailedWriteKeeps(disk: Disk, path: Path, text: string, io: Io, codec: JsonCodec, ns: string, key: string)
    requires !io.Works?
    ensures Lookup(Save(disk, path, text, io), ns, key, codec) == Lookup(disk, ns, key, codec)
  {
    hide IsSafeSegment, ValidName, DispatchPath;
  }

  lemma PutFailsKeeps(disk: Disk, ns: string, key: string, v: Json, io: Io, codec: JsonCodec, ns': string, key': string)
    requires CanPut(disk, ns, key, codec) && !io.Works?
    ensures Lookup(Put(disk, ns, key, v, io, codec), ns', key', codec) == Lookup(disk, ns', key', codec)
  {
    hide IsSafeSegment, ValidName, DispatchPath, Lookup, Save;
    if DispatchPath(key).Some? {
      FailedWriteKeeps(disk, DispatchPath(key).value, codec.render(v), io, codec, ns', key');
    } else {
      var m := ReadLegacy(disk, ns, codec).value[key := v];
      FailedWriteKeeps(disk, Legacy(ns), codec.render(Obj(m)), io, codec, ns', key');
    }
  }

  /** An upsert, or an error that changes nothing. */
  lemma SetIsUpdate(disk: Disk, ns: string, key: string, v: Json, io: Io, codec: JsonCodec, ns': string, key': string)
    requires Inverse(codec)
    ensures var o := SetOutcome(disk, ns, key, v, io, codec);
            Lookup(o.disk, ns', key', codec)
            == if o.result.Ok? && SameEntry(ns, key, ns', key') then Ok(Some(v)) else Lookup(disk, ns', key', codec)
  {
    hide Lookup, Put, SameEntry, ReadLegacy, DispatchPath;
    if CanPut(disk, ns, key, codec) {
      if io.Works? {
        PutIsUpdate(disk, ns, key, v, codec, ns', key');
      } else {
        PutFailsKeeps(disk, ns, key, v, io, codec, ns', key');
      }
    }
  }

  lemma HasMeansCanPut(disk: Disk, ns: string, key: string, codec: JsonCodec)
    requires HasKey(disk, ns, key, codec) == Ok(false)
    ensures CanPut(disk, ns, key, codec) && Lookup(disk, ns, key, codec) == Ok(None)
  {
    hide IsSafeSegment, ValidName, DispatchPath;
  }

  /** `set_nx` writes exactly when both layers lack the key, and says so. */
  lemma SetNxIsUpdate(disk: Disk, ns: string, key: string, v: Json, io: Io, codec: JsonCodec, ns': string, key': string)
    requires Inverse(codec)
    ensures var o := SetNxOutcome(disk, ns, key, v, io, codec);
            && (o.result == Ok(true) <==> io.Works? && Lookup(disk, ns, key, codec) == Ok(None))
            && Lookup(o.disk, ns', key', codec)
               == if o.result == Ok(true) && SameEntry(ns, key, ns', key') then Ok(Some(v))
                  else Lookup(disk, ns', key', codec)
  {
    if HasKey(disk, ns, key, codec) == Ok(false) {
      HasMeansCanPut(disk, ns, key, codec);
      hide Lookup, Put, SameEntry, ReadLegacy, DispatchPath, HasKey, CanPut;
      if io.Works? {
        PutIsUpdate(disk, ns, key, v, codec, ns', key');
      } else {
        PutFailsKeeps(disk, ns, key, v, io, codec, ns', key');
      }
    } else if Lookup(disk, ns, key, codec).Ok? {
      hide Lookup, HasKey;
      HasIffGet(disk, ns, key, codec);
    }
  }

  /** `incr` adds to the visible number, whichever layer holds it, or to the default. */
  lemma IncrIsUpdate(disk: Disk, ns: string, key: string, delta: F64, default: F64, io: Io, codec: JsonCodec,
      ns': string, key': string)
    requires Inverse(codec)
    ensures var o, was := IncrOutcome(disk, ns, key, delta, default, io, codec), Lookup(disk, ns, key, codec);
            && (o.result.Ok? <==> io.Works? && was.Ok? && (was.value.Some? ==> IsNumber(was.value.value)))
            && (o.result.Ok? ==>
                  o.result.value == (if was.value.Some? then AsF64(was.value.value) else default) + delta)
            && Lookup(o.disk, ns', key', codec)
               == if o.result.Ok? && SameEntry(ns, key, ns', key') then Ok(Some(Float(o.result.value)))
                  else Lookup(disk, ns', key', codec)
  {
    hide Put, SameEntry, DispatchPath, HasKey, CanPut;
    var was := Lookup(disk, ns, key, codec);
    if was.Ok? && (was.value.Some? ==> IsNumber(was.value.value)) {
      ReadMeansCanPut(disk, ns, key, codec);
      hide Lookup;
      var base := if was.value.Some? then NumberOf(was.value.value) else default;
      if io.Works? {
        PutIsUpdate(disk, ns, key, Float(AddF64(base, delta)), codec, ns', key');
      } else {
        PutFailsKeeps(disk, ns, key, Float(AddF64(base, delta)), io, codec, ns', key');
      }
    }
  }

  lemma ReadMeansCanPut(disk: Disk, ns: string, key: string, codec: JsonCodec)
    requires Lookup(disk, ns, key, codec).Ok?
    ensures CanPut(disk, ns, key, codec)
  {
    hide IsSafeSegment, ValidName, DispatchPath;
  }

  /** Deleting a namespace file's entry touches that entry only. */
  lemma DeleteEntryIsRemoval(disk: Disk, ns: string, key: string, codec: JsonCodec, ns': string, key': string)
    requires Inverse(codec)
    ensures var o := DeleteEntryOutcome(disk, ns, key, Works, codec);
            && (o.result == Ok(true)
                <==> LegacyEntry(disk, ns, key, codec).Ok? && LegacyEntry(disk, ns, key, codec).value.Some?)
            && LegacyEntry(o.disk, ns', key', codec)
               == (if o.result == Ok(true) && ns' == ns && key' == key then Ok(None)
                   else LegacyEntry(disk, ns', key', codec))
            && InFile(o.disk, key') == InFile(disk, key')
            && (InFile(disk, key') ==> Lookup(o.disk, ns', key', codec) == Lookup(disk, ns', key', codec))
  {
    hide IsSafeSegment, ValidName, DispatchPath;
    DispatchedOnly(key');
    var m := ReadLegacy(disk, ns, codec);
    if m.Ok? && key in m.value {
      assert codec.parse(codec.render(Obj(m.value - {key}))) == Some(Obj(m.value - {key}));
      ReadLegacyIsValid(disk, ns, codec);
    }
  }

  /** A delete reports whether the key was there and uncovers at most the value the
      key's own file was hiding; every other key keeps its value. */
  lemma DeleteUncovers(disk: Disk, ns: string, key: string, codec: JsonCodec, ns': string, key': string)
    requires Inverse(codec)
    ensures var o := DeleteOutcome(disk, ns, key, Works, codec);
            && (o.result == Ok(true) <==> HasKey(disk, ns, key, codec) == Ok(true))
            && Lookup(o.disk, ns', key', codec)
               == if key' == key && InFile(disk, key) then LegacyEntry(disk, ns', key', codec)
                  else if key' == key && ns' == ns && o.result == Ok(true) then Ok(None)
                  else Lookup(disk, ns', key', codec)
  {
    hide IsSafeSegment, ValidName, DispatchPath, DeleteEntryOutcome;
    DispatchedOnly(key);
    DispatchedOnly(key');
    if InFile(disk, key) {
      if InFile(disk, key') && DispatchPath(key) == DispatchPath(key') {
        DispatchIsInjective(key, key');
      }
    } else {
      DeleteEntryIsRemoval(disk, ns, key, codec, ns', key');
    }
  }

  /** After two deletes in a readable namespace the key is gone from it. */
  lemma SecondDeleteRemoves(disk: Disk, ns: string, key: string, codec: JsonCodec)
    requires Inverse(codec) && ReadLegacy(disk, ns, codec).Ok?
    ensures var once := DeleteOutcome(disk, ns, key, Works, codec).disk;
            Lookup(DeleteOutcome(once, ns, key, Works, codec).disk, ns, key, codec) == Ok(None)
  {
    hide IsSafeSegment, ValidName, DispatchPath, DeleteEntryOutcome;
    DispatchedOnly(key);
    var once := DeleteOutcome(disk, ns, key, Works, codec).disk;
    if InFile(disk, key) {
      assert !InFile(once, key) && ReadLegacy(once, ns, codec) == ReadLegacy(disk, ns, codec);
      DeleteEntryIsRemoval(once, ns, key, codec, ns, key);
    } else {
      DeleteEntryIsRemoval(disk, ns, key, codec, ns, key);
      DeleteEntryIsRemoval(once, ns, key, codec, ns, key);
    }
  }

  // ----- runs -----

  datatype Op =
    | OpSet(ns: string, key: string, v: Json)
    | OpSetNx(ns: string, key: string, v: Json)
    | OpIncr(ns: string, key: string, delta: F64, default: F64)
    | OpDelete(ns: string, key: string)

  function Apply(disk: Disk, op: Op, io: Io, codec: JsonCodec): Disk {
    match op
    case OpSet(ns, key, v) => SetOutcome(disk, ns, key, v, io, codec).disk
    case OpSetNx(ns, key, v) => SetNxOutcome(disk, ns, key, v, io, codec).disk
    case OpIncr(ns, key, delta, default) => IncrOutcome(disk, ns, key, delta, default, io, codec).disk
    case OpDelete(ns, key) => DeleteOutcome(disk, ns, key, io, codec).disk
  }

  datatype Attempt = Attempt(op: Op, io: Io)

  function RunOps(disk: Disk, ops: seq<Attempt>, codec: JsonCodec): Disk {
    if ops == [] then disk
    else Apply(RunOps(disk, ops[..|ops| - 1], codec), ops[|ops| - 1].op, ops[|ops| - 1].io, codec)
  }

  ghost predicate LegacyShrinks(a: Disk, b: Disk, ns: string, key: string, codec: JsonCodec) {
    var was, now := LegacyEntry(a, ns, key, codec), LegacyEntry(b, ns, key, codec);
    && (was.Err? <==> now.Err?)
    && (now.Ok? && now.value.Some? ==> now == was)
  }

  lemma SaveKeepsLegacy(disk: Disk, ns: string, key: string, m: map<string, Json>, io: Io, codec: JsonCodec,
      ns': string, key': string)
    requires Inverse(codec) && ReadLegacy(disk, ns, codec).Ok?
    requires var was := ReadLegacy(disk, ns, codec).value;
             (key' in m ==> key' in was && was[key'] == m[key'])
    ensures LegacyShrinks(disk, Save(disk, Legacy(ns), codec.render(Obj(m)), io), ns', key', codec)
  {
    hide ValidName;
    assert codec.parse(codec.render(Obj(m))) == Some(Obj(m));
  }

  lemma SaveElsewhereKeepsLegacy(disk: Disk, path: Path, text: string, io: Io, codec: JsonCodec,
      ns: string, key: string)
    requires path.Dispatched?
    ensures LegacyEntry(Save(disk, path, text, io), ns, key, codec) == LegacyEntry(disk, ns, key, codec)
  {
    hide ValidName;
  }

  lemma PutKeepsLegacy(disk: Disk, ns: string, key: string, v: Json, io: Io, codec: JsonCodec,
      ns': string, key': string)
    requires Inverse(codec) && CanPut(disk, ns, key, codec) && DispatchPath(key').Some?
    ensures LegacyShrinks(disk, Put(disk, ns, key, v, io, codec), ns', key', codec)
  {
    hide IsSafeSegment, DispatchPath, Save, ReadLegacy, LegacyEntry;
    DispatchedOnly(key);
    if DispatchPath(key).Some? {
      SaveElsewhereKeepsLegacy(disk, DispatchPath(key).value, codec.render(v), io, codec, ns', key');
    } else {
      SaveKeepsLegacy(disk, ns, key, ReadLegacy(disk, ns, codec).value[key := v], io, codec, ns', key');
    }
  }

  lemma ApplyKeepsLegacy(disk: Disk, op: Op, io: Io, codec: JsonCodec, ns: string, key: string)
    requires Inverse(codec) && DispatchPath(key).Some?
    ensures LegacyShrinks(disk, Apply(disk, op, io, codec), ns, key, codec)
  {
    hide IsSafeSegment, DispatchPath, Save, ReadLegacy, LegacyEntry, Put, CanPut;
    match op {
      case OpSet(ns1, key1, v) =>
        if CanPut(disk, ns1, key1, codec) {
          PutKeepsLegacy(disk, ns1, key1, v, io, codec, ns, key);
        }
      case OpSetNx(ns1, key1, v) =>
        if HasKey(disk, ns1, key1, codec) == Ok(false) {
          HasMeansCanPut(disk, ns1, key1, codec);
          PutKeepsLegacy(disk, ns1, key1, v, io, codec, ns, key);
        }
      case OpIncr(ns1, key1, delta, default) =>
        if Lookup(disk, ns1, key1, codec).Ok? {
          ReadMeansCanPut(disk, ns1, key1, codec);
          var o := IncrOutcome(disk, ns1, key1, delta, default, io, codec);
          if o.disk != disk {
            var cur := Lookup(disk, ns1, key1, codec).value;
            var base := if cur.Some? then NumberOf(cur.value) else default;
            PutKeepsLegacy(disk, ns1, key1, Float(AddF64(base, delta)), io, codec, ns, key);
          }
        }
      case OpDelete(ns1, key1) =>
        DeleteKeepsLegacy(disk, ns1, key1, io, codec, ns, key);
    }
  }

  lemma DeleteKeepsLegacy(disk: Disk, ns: string, key: string, io: Io, codec: JsonCodec, ns': string, key': string)
    requires Inverse(codec)
    ensures LegacyShrinks(disk, DeleteOutcome(disk, ns, key, io, codec).disk, ns', key', codec)
  {
    hide IsSafeSegment, DispatchPath, ValidName, Save;
    DispatchedOnly(key);
    var m := ReadLegacy(disk, ns, codec);
    if !InFile(disk, key) && m.Ok? && key in m.value {
      SaveKeepsLegacy(disk, ns, key, m.value - {key}, io, codec, ns', key');
    }
  }

  /** Over any run, failing writes included, a namespace file never gains or changes
      an entry for a dispatch-shaped key. */
  lemma {:induction false} LegacyOnlyShrinks(disk: Disk, ops: seq<Attempt>, codec: JsonCodec, ns: string, key: string)
    requires Inverse(codec) && DispatchPath(key).Some?
    ensures LegacyShrinks(disk, RunOps(disk, ops, codec), ns, key, codec)
  {
    hide Apply, LegacyEntry, DispatchPath;
    if ops != [] {
      var front, last := ops[..|ops| - 1], ops[|ops| - 1];
      LegacyOnlyShrinks(disk, front, codec, ns, key);
      ApplyKeepsLegacy(RunOps(disk, front, codec), last.op, last.io, codec, ns, key);
    }
  }
}
