/** The JSON state file both channels share: normalisation, load, save and partial updates under one lock. */
module StateStore {
  import opened Wrappers

  datatype Json = Null | Int(n: int) | Text(s: string) | List(items: seq<Json>) | Other(repr: string)

  type Dict = map<string, Json>

  /** Python's `int` (None when it raises) and `str` on values this model does not look into. */
  datatype Conversions = Conversions(toInt: Json -> Option<int>, toText: Json -> string)

  ghost predicate Faithful(conv: Conversions) {
    && (forall n: int :: conv.toInt(Int(n)) == Some(n))
    && (forall s: string :: conv.toText(Text(s)) == s)
  }

  /** What is on disk; `NotADict` is well-formed JSON of another shape. */
  datatype File = Absent | Damaged | NotADict | Holding(data: Dict)

  const REVISION := "last_revision"
  const RULE_IDS := "local_rule_ids"
  const COMMAND_ID := "last_command_id"

  function Default(): Dict {
    map[REVISION := Int(0), RULE_IDS := List([]), COMMAND_ID := Text("")]
  }

  function SetDefault(d: Dict, key: string, value: Json): Dict {
    if key in d then d else d[key := value]
  }

  /** None when `int` raises on the revision. */
  function Normalize(conv: Conversions, data: Dict): Option<Dict> {
    var d := SetDefault(SetDefault(SetDefault(data, REVISION, Int(0)), RULE_IDS, List([])), COMMAND_ID, Text(""));
    match conv.toInt(d[REVISION])
    case None => None
    case Some(n) =>
      Some(d[REVISION := Int(n)]
            [RULE_IDS := if d[RULE_IDS].List? then d[RULE_IDS] else List([])]
            [COMMAND_ID := if d[COMMAND_ID].Null? then Text("") else Text(conv.toText(d[COMMAND_ID]))])
  }

  /** `readable` is false when opening or parsing the file fails this time. */
  function Loaded(conv: Conversions, file: File, readable: bool): Dict {
    if !readable || !file.Holding? then Default()
    else
      var d := Normalize(conv, file.data);
      if d.None? then Default() else d.value
  }

  function Assign(d: Dict, items: seq<(string, Json)>): Dict {
    if items == [] then d
    else Assign(d, items[..|items| - 1])[items[|items| - 1].0 := items[|items| - 1].1]
  }

  /** None when the update raises; the file is replaced only on success. */
  function Merged(conv: Conversions, file: File, items: seq<(string, Json)>, readable: bool): Option<Dict> {
    Normalize(conv, Assign(Loaded(conv, file, readable), items))
  }

  class LocalStateStore {
    const conv: Conversions
    var file: File

    constructor (conv: Conversions, file: File)
      ensures this.conv == conv && this.file == file
    {
      this.conv, this.file := conv, file;
    }

    method NormalizeInPlace(data: Dict) returns (result: Option<Dict>)
      ensures result.None? <==> conv.toInt(if REVISION in data then data[REVISION] else Int(0)).None?
      ensures result.Some? ==>
                var d := result.value;
                && d.Keys == data.Keys + {"last_revision", "local_rule_ids", "last_command_id"}
                && d - {REVISION, RULE_IDS, COMMAND_ID} == data - {REVISION, RULE_IDS, COMMAND_ID}
                && d[REVISION].Int?
                && Some(d[REVISION].n) == conv.toInt(if REVISION in data then data[REVISION] else Int(0))
                && d[RULE_IDS] == (if RULE_IDS in data && data[RULE_IDS].List? then data[RULE_IDS] else List([]))
                && d[COMMAND_ID] == if COMMAND_ID in data && data[COMMAND_ID].Null? then Text("")
                                    else Text(conv.toText(if COMMAND_ID in data then data[COMMAND_ID] else Text("")))
      ensures result == Normalize(conv, data)
    {
      var d := data;
      if REVISION !in d { d := d[REVISION := Int(0)]; }
      if RULE_IDS !in d { d := d[RULE_IDS := List([])]; }
      if COMMAND_ID !in d { d := d[COMMAND_ID := Text("")]; }
      ghost var filled := d;
      assert filled ==
             SetDefault(SetDefault(SetDefault(data, REVISION, Int(0)), RULE_IDS, List([])), COMMAND_ID, Text(""));
      var n := conv.toInt(d[REVISION]);
      if n.None? {
        return None;
      }
      d := d[REVISION := Int(n.value)];
      if !d[RULE_IDS].List? {
        d := d[RULE_IDS := List([])];
      }
      assert d == filled[REVISION := Int(n.value)]
                        [RULE_IDS := if filled[RULE_IDS].List? then filled[RULE_IDS] else List([])];
      if d[COMMAND_ID].Null? {
        d := d[COMMAND_ID := Text("")];
      } else {
        d := d[COMMAND_ID := Text(conv.toText(d[COMMAND_ID]))];
      }
      result := Some(d);
    }

    method Load(readable: bool) returns (data: Dict)
      ensures data == Loaded(conv, file, readable)
      ensures !readable || !file.Holding? ==>
                data == map["last_revision" := Int(0), "local_rule_ids" := List([]), "last_command_id" := Text("")]
    {
      if !readable || !file.Holding? {
        return Default();
      }
      var d := NormalizeInPlace(file.data);
      data := if d.None? then Default() else d.value;
    }

    method Save(data: Dict, writable: bool) returns (raised: bool)
      modifies this`file
      ensures raised <==> !writable || Normalize(conv, data).None?
      ensures file == if raised then old(file) else Holding(Normalize(conv, data).value)
    {
      var d := NormalizeInPlace(data);
      if d.None? || !writable {
        return true;
      }
      file := Holding(d.value);
      raised := false;
    }

    method MergeUpdate(items: seq<(string, Json)>, readable: bool, writable: bool) returns (raised: bool)
      modifies this`file
      ensures raised <==> !writable || Merged(conv, old(file), items, readable).None?
      ensures file == if raised then old(file) else Holding(Merged(conv, old(file), items, readable).value)
    {
      var data := Load(readable);
      ghost var loaded := data;
      for i := 0 to |items|
        invariant data == Assign(loaded, items[..i])
      {
        assert items[..i + 1][..i] == items[..i];
        data := data[items[i].0 := items[i].1];
      }
      assert items[..|items|] == items;
      raised := Save(data, writable);
    }
  }

  // ---- normal form --------------------------------------------------------

  lemma NormalizeIdempotent(conv: Conversions, data: Dict)
    requires Faithful(conv) && Normalize(conv, data).Some?
    ensures Normalize(conv, Normalize(conv, data).value) == Normalize(conv, data)
  {
    var d := Normalize(conv, data).value;
    assert SetDefault(SetDefault(SetDefault(d, REVISION, Int(0)), RULE_IDS, List([])), COMMAND_ID, Text("")) == d;
    assert d[REVISION := d[REVISION]][RULE_IDS := d[RULE_IDS]][COMMAND_ID := d[COMMAND_ID]] == d;
  }

  /** Loading what was saved gives back the normal form of what was passed to `Save`. */
  lemma LoadAfterSave(conv: Conversions, data: Dict)
    requires Faithful(conv) && Normalize(conv, data).Some?
    ensures Loaded(conv, Holding(Normalize(conv, data).value), true) == Normalize(conv, data).value
  {
    NormalizeIdempotent(conv, data);
  }

  // ---- updates of both channels -------------------------------------------

  datatype Update = FromA(revision: int, ruleIds: seq<string>) | FromB(commandId: string)

  function Texts(ids: seq<string>): seq<Json> {
    seq(|ids|, i requires 0 <= i < |ids| => Text(ids[i]))
  }

  function Items(u: Update): seq<(string, Json)> {
    match u
    case FromA(revision, ids) => [(REVISION, Int(revision)), (RULE_IDS, List(Texts(ids)))]
    case FromB(id) => [(COMMAND_ID, Text(id))]
  }

  /** The store as the channels see it. */
  datatype View = View(revision: int, ruleIds: seq<Json>, commandId: string)

  ghost predicate Shows(d: Dict, v: View) {
    && REVISION in d && d[REVISION] == Int(v.revision)
    && RULE_IDS in d && d[RULE_IDS] == List(v.ruleIds)
    && COMMAND_ID in d && d[COMMAND_ID] == Text(v.commandId)
  }

  lemma LoadedShows(conv: Conversions, file: File, readable: bool) returns (v: View)
    ensures Shows(Loaded(conv, file, readable), v)
  {
    var d := Loaded(conv, file, readable);
    v := View(d[REVISION].n, d[RULE_IDS].items, d[COMMAND_ID].s);
  }

  function Updated(v: View, u: Update): View {
    match u
    case FromA(revision, ids) => v.(revision := revision, ruleIds := Texts(ids))
    case FromB(id) => v.(commandId := id)
  }

  /**
   One update never raises by itself and changes its own channel's fields only; a
   failed read first resets the other channel's fields to their defaults.
   */
  lemma MergeShows(conv: Conversions, file: File, u: Update, readable: bool, v: View)
    requires Faithful(conv) && Shows(Loaded(conv, file, readable), v)
    ensures Merged(conv, file, Items(u), readable).Some?
    ensures Shows(Loaded(conv, Holding(Merged(conv, file, Items(u), readable).value), true), Updated(v, u))
    ensures !readable ==> v == View(0, [], "")
  {
    var d := Loaded(conv, file, readable);
    var items := Items(u);
    if u.FromA? {
      assert items[..1][..0] == [] && items[..1][0] == items[0];
      assert Assign(d, items[..1]) == d[REVISION := Int(u.revision)];
      assert Assign(d, items) == d[REVISION := Int(u.revision)][RULE_IDS := List(Texts(u.ruleIds))];
    } else {
      assert items[..0] == [];
      assert Assign(d, items) == d[COMMAND_ID := Text(u.commandId)];
    }
    LoadAfterSave(conv, Assign(d, items));
  }

  function Store(conv: Conversions, file: File, us: seq<Update>): File {
    if us == [] then file
    else
      var before := Store(conv, file, us[..|us| - 1]);
      var d := Merged(conv, before, Items(us[|us| - 1]), true);
      if d.None? then before else Holding(d.value)
  }

  /** What A's latest update in `us` stored, or `v` when A has stored nothing. */
  function LatestOfA(us: seq<Update>, v: View): (int, seq<Json>) {
    if us == [] then (v.revision, v.ruleIds)
    else
      var u := us[|us| - 1];
      if u.FromA? then (u.revision, Texts(u.ruleIds)) else LatestOfA(us[..|us| - 1], v)
  }

  function LatestOfB(us: seq<Update>, v: View): string {
    if us == [] then v.commandId
    else
      var u := us[|us| - 1];
      if u.FromB? then u.commandId else LatestOfB(us[..|us| - 1], v)
  }

  /**
   No lost update: however the two channels' updates interleave, the revision and
   the rule ids are those of A's latest, the command id is that of B's latest.
   */
  lemma {:induction false} NoLostUpdate(conv: Conversions, file: File, us: seq<Update>, v: View)
    requires Faithful(conv) && Shows(Loaded(conv, file, true), v)
    ensures Shows(Loaded(conv, Store(conv, file, us), true),
                  View(LatestOfA(us, v).0, LatestOfA(us, v).1, LatestOfB(us, v)))
  {
    if us != [] {
      var k := |us| - 1;
      NoLostUpdate(conv, file, us[..k], v);
      MergeShows(conv, Store(conv, file, us[..k]), us[k], true,
                 View(LatestOfA(us[..k], v).0, LatestOfA(us[..k], v).1, LatestOfB(us[..k], v)));
    }
  }
}
