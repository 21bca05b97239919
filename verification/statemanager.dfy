/**
 * The watermark store of postgres_to_es/statemanager.py: a string-keyed map
 * kept in a JSON file, read whole on every access and written whole on every
 * `set_state`.
 *
 * Stored values are strings (timestamps and the status words 'planned' and
 * 'loaded'); a value is falsy in the Python sense exactly when it is empty.
 */
module StateManager {

  import opened Wrappers

  /** How one `save_state` call ends. `open(path, 'w')` either fails before it
    * touches the file, or truncates the file and then the dump may still fail,
    * leaving text that no longer parses as a JSON object. */
  datatype SaveOutcome = Saved | OpenFailed | WriteFailed

  /** The persisted file: `None` when it is missing or does not parse. */
  type File = Option<map<string, string>>

  /** Python truthiness of a looked-up value: `None` and `''` are falsy. */
  predicate Truthy(v: Option<string>)
  {
    v.Some? && v.value != ""
  }

  /** `retrieve_state`: the file's map, or `{}` when opening or parsing fails
    * (the `finally: return results` swallows the error). */
  function Retrieved(file: File): (m: map<string, string>)
    ensures file.None? ==> m == map[]
    ensures file.Some? ==> m == file.value
  {
    match file
    case None => map[]
    case Some(m) => m
  }

  /** `get_state` on an already retrieved map: absent keys give `None`, present
    * keys give their value even when it is falsy. */
  function Lookup(m: map<string, string>, key: string): (r: Option<string>)
    ensures r.None? <==> key !in m
    ensures r.Some? ==> key in m && r.value == m[key]
  {
    if key !in m then None else Some(m[key])
  }

  /** The file after `save_state(state)` ended with `outcome`. */
  function AfterSave(file: File, state: map<string, string>, outcome: SaveOutcome): (f: File)
    ensures outcome.Saved? ==> f == Some(state)
    ensures outcome.OpenFailed? ==> f == file
    ensures outcome.WriteFailed? ==> f.None?
  {
    match outcome
    case Saved => Some(state)
    case OpenFailed => file
    case WriteFailed => None
  }

  /** The file after `set_state(key, value)` whose save ended with `outcome`:
    * the whole retrieved map with `key` overwritten is what gets saved. */
  function AfterSet(file: File, key: string, value: string, outcome: SaveOutcome): (f: File)
    ensures outcome.Saved? ==> f.Some? && f.value.Keys == Retrieved(file).Keys + {key}
    ensures outcome.Saved? ==> f.value[key] == value
    ensures outcome.Saved? ==> forall k :: k in Retrieved(file) && k != key ==> f.value[k] == Retrieved(file)[k]
    ensures outcome.OpenFailed? ==> f == file
    ensures outcome.WriteFailed? ==> f.None?
  {
    AfterSave(file, Retrieved(file)[key := value], outcome)
  }

  /** A sequence of `set_state` calls, the i-th of which saves with `saves[i]`. */
  function AfterSets(file: File, writes: seq<(string, string)>, saves: seq<SaveOutcome>): File
    requires |writes| <= |saves|
    decreases |writes|
  {
    if writes == [] then file
    else AfterSets(AfterSet(file, writes[0].0, writes[0].1, saves[0]), writes[1..], saves[1..])
  }

  /** The map `m` with every write applied in order (the last write to a key wins). */
  function Overlay(m: map<string, string>, writes: seq<(string, string)>): map<string, string>
    decreases |writes|
  {
    if writes == [] then m else Overlay(m[writes[0].0 := writes[0].1], writes[1..])
  }

  /** The last value written to `key`, if any write touches it. */
  function LastWrite(writes: seq<(string, string)>, key: string): (r: Option<string>)
    ensures r.None? <==> forall i :: 0 <= i < |writes| ==> writes[i].0 != key
    ensures r.Some? ==> exists i :: 0 <= i < |writes| && writes[i] == (key, r.value)
  {
    if writes == [] then None
    else if writes[|writes| - 1].0 == key then Some(writes[|writes| - 1].1)
    else LastWrite(writes[..|writes| - 1], key)
  }

  /** The JSON file used by the pipeline. */
  class JsonFileStorage {
    const filePath: string
    var file: File

    constructor (filePath: string, file: File)
      ensures this.filePath == filePath && this.file == file
    {
      this.filePath := filePath;
      this.file := file;
    }

    /** `retrieve_state`: never raises. */
    function RetrieveState(): (m: map<string, string>)
      reads this
      ensures file.Some? ==> m == file.value
      ensures file.None? ==> m == map[]
    {
      Retrieved(file)
    }

    /** `save_state`: writes `state` as the whole file; `raised` tells whether the
      * call ended with an exception. */
    method SaveState(state: map<string, string>, outcome: SaveOutcome) returns (raised: bool)
      modifies this
      ensures raised <==> !outcome.Saved?
      ensures file == AfterSave(old(file), state, outcome)
    {
      match outcome
      case Saved =>
        file := Some(state);
        raised := false;
      case OpenFailed =>
        raised := true;
      case WriteFailed =>
        file := None;
        raised := true;
    }
  }

  /** `State`: the accessor the extractor uses, over one storage. */
  class State {
    const storage: JsonFileStorage

    constructor (storage: JsonFileStorage)
      ensures this.storage == storage
    {
      this.storage := storage;
    }

    /** `get_state`: `None` exactly for an absent key, else the stored value. */
    function GetState(key: string): (r: Option<string>)
      reads storage
      ensures r.None? <==> key !in storage.RetrieveState()
      ensures r.Some? ==> r.value == storage.RetrieveState()[key]
    {
      Lookup(storage.RetrieveState(), key)
    }

    /** `set_state`: read the whole map, overwrite `key`, save the whole map.
      * A failed save is swallowed; the "restore" step only rewrites the local
      * map, returned here as the ghost `conditions`, and only when the old
      * value was truthy. */
    method SetState(key: string, value: string, outcome: SaveOutcome) returns (ghost conditions: map<string, string>)
      modifies storage
      ensures storage.file == AfterSet(old(storage.file), key, value, outcome)
      ensures conditions ==
        if !outcome.Saved? && old(Truthy(GetState(key)))
        then old(storage.RetrieveState())
        else old(storage.RetrieveState())[key := value]
    {
      var local := storage.RetrieveState();
      var oldValue: Option<string> := None;
      if !Truthy(GetState(key)) {
        // the source only prints a warning here and still writes the key
      } else {
        oldValue := Some(local[key]);
      }
      local := local[key := value];
      var raised := storage.SaveState(local, outcome);
      if raised {
        if Truthy(oldValue) {
          local := local[key := oldValue.value];
        }
      }
      conditions := local;
    }
  }

  /** A key explicitly set, even to a falsy value, is no longer absent; an
    * absent key and a key holding `''` read differently. */
  lemma AbsentDiffersFromFalsy(m: map<string, string>, key: string)
    requires key !in m
    ensures Lookup(m, key) == None
    ensures Lookup(m[key := ""], key) == Some("")
    ensures !Truthy(Lookup(m, key)) && !Truthy(Lookup(m[key := ""], key))
  {
  }

  /** After a successful `set_state(key, value)`, `get_state(key)` gives `value`,
    * whatever the key held before (absent, falsy or not). */
  lemma GetAfterSet(file: File, key: string, value: string)
    ensures Lookup(Retrieved(AfterSet(file, key, value, Saved)), key) == Some(value)
  {
  }

  /** A successful `set_state` saves the previous map with only `key` changed. */
  lemma SetKeepsOtherKeys(file: File, key: string, value: string, other: string)
    requires other != key
    ensures Retrieved(AfterSet(file, key, value, Saved)) == Retrieved(file)[key := value]
    ensures Lookup(Retrieved(AfterSet(file, key, value, Saved)), other) == Lookup(Retrieved(file), other)
  {
  }

  /** A save whose `open` fails leaves the durable state exactly as it was. */
  lemma FailedOpenKeepsState(file: File, key: string, value: string)
    ensures AfterSet(file, key, value, OpenFailed) == file
    ensures forall k :: Lookup(Retrieved(AfterSet(file, key, value, OpenFailed)), k) == Lookup(Retrieved(file), k)
  {
  }

  /** A save that fails after `open(path, 'w')` truncated the file loses every
    * key, not only the one being written: all later reads see `{}`. */
  lemma FailedWriteLosesEveryKey(file: File, key: string, value: string, k: string)
    ensures Lookup(Retrieved(AfterSet(file, key, value, WriteFailed)), k) == None
  {
  }

  /** When every save of a sequence of `set_state` calls succeeds, the durable
    * map is the starting map overlaid with the writes in order. */
  lemma {:induction false} AllSavedOverlay(file: File, writes: seq<(string, string)>, saves: seq<SaveOutcome>)
    requires |writes| <= |saves|
    requires forall i :: 0 <= i < |saves| ==> saves[i].Saved?
    ensures Retrieved(AfterSets(file, writes, saves)) == Overlay(Retrieved(file), writes)
    decreases |writes|
  {
    if writes != [] {
      var next := AfterSet(file, writes[0].0, writes[0].1, saves[0]);
      assert saves[0].Saved?;
      assert Retrieved(next) == Retrieved(file)[writes[0].0 := writes[0].1];
      AllSavedOverlay(next, writes[1..], saves[1..]);
      assert AfterSets(file, writes, saves) == AfterSets(next, writes[1..], saves[1..]);
      assert Overlay(Retrieved(file), writes) == Overlay(Retrieved(next), writes[1..]);
    }
  }

  /** Reading one key of an overlay: the last write to it wins, and keys no
    * write touches keep their value. */
  lemma {:induction false} OverlayLookup(m: map<string, string>, writes: seq<(string, string)>, key: string)
    ensures Lookup(Overlay(m, writes), key) ==
      if LastWrite(writes, key).Some? then LastWrite(writes, key) else Lookup(m, key)
    decreases |writes|
  {
    if writes != [] {
      var n := |writes|;
      var init := writes[..n - 1];
      OverlaySnoc(m, init, writes[n - 1]);
      assert init + [writes[n - 1]] == writes;
      OverlayLookup(m, init, key);
    }
  }

  /** Applying one more write after a sequence of writes. */
  lemma {:induction false} OverlaySnoc(m: map<string, string>, writes: seq<(string, string)>, w: (string, string))
    ensures Overlay(m, writes + [w]) == Overlay(m, writes)[w.0 := w.1]
    decreases |writes|
  {
    if writes == [] {
      assert Overlay(m[w.0 := w.1], []) == m[w.0 := w.1];
    } else {
      assert (writes + [w])[1..] == writes[1..] + [w];
      OverlaySnoc(m[writes[0].0 := writes[0].1], writes[1..], w);
    }
  }
}
