/** The versioned configuration (src/api/orchestration/config_service.py): the recursive merge of a patch into a
    payload, and the append-only log of versions with its change notifications. Schema validation is a parameter
    that returns the canonical dump of a payload or refuses it. */
module Config {

  import opened Options

  /** A JSON payload; `Leaf` is any value that is not a mapping. */
  datatype Json = Leaf(text: string) | Obj(entries: map<string, Json>)

  type Fields = map<string, Json>

  // ----- The merge -----

  /** What a key holds after the merge: two mappings merge, everything else is replaced. */
  function Overlay(base: Json, patch: Json): Json
    decreases patch, 1
  {
    if base.Obj? && patch.Obj? then Obj(Merge(base.entries, patch.entries)) else patch
  }

  function Merge(base: Fields, patch: Fields): Fields
    decreases Obj(patch), 0
  {
    map k | k in base.Keys + patch.Keys ::
      if k !in patch then base[k]
      else
        assert patch[k] < Obj(patch);
        if k in base then Overlay(base[k], patch[k]) else patch[k]
  }

  /** The merge as the service runs it: a copy of the base, updated key by key in any order. */
  method DeepMerge(base: Fields, patch: Fields) returns (out: Fields)
    ensures out == Merge(base, patch)
    decreases Obj(patch)
  {
    out := base;
    var todo := patch.Keys;
    ghost var done: set<string> := {};
    while todo != {}
      invariant done !! todo && done + todo == patch.Keys
      invariant out.Keys == base.Keys + done
      invariant forall k :: k in out ==> out[k] == if k in done then Merge(base, patch)[k] else base[k]
      decreases todo
    {
      var key :| key in todo;
      ghost var before := out;
      if patch[key].Obj? && key in out && out[key].Obj? {
        assert patch[key] < Obj(patch);
        var inner := DeepMerge(out[key].entries, patch[key].entries);
        assert Obj(inner) == Overlay(base[key], patch[key]);
        out := out[key := Obj(inner)];
      } else {
        out := out[key := patch[key]];
      }
      assert out[key] == Merge(base, patch)[key];
      todo, done := todo - {key}, done + {key};
    }
  }

  // ----- Reading a payload by path -----

  datatype Kind = Missing | LeafAt(text: string) | ObjAt

  function KindAt(j: Json, path: seq<string>): Kind
    decreases |path|
  {
    if path == [] then (if j.Leaf? then LeafAt(j.text) else ObjAt)
    else if j.Obj? && path[0] in j.entries then KindAt(j.entries[path[0]], path[1..])
    else Missing
  }

  /** The patch has a value at the path, or a leaf on the way to it. */
  predicate Decides(patch: Json, path: seq<string>)
    decreases |path|
  {
    path == [] || patch.Leaf? || (path[0] in patch.entries && Decides(patch.entries[path[0]], path[1..]))
  }

  lemma {:induction false} UndecidedIsMissing(patch: Json, path: seq<string>)
    requires !Decides(patch, path)
    ensures KindAt(patch, path) == Missing
    decreases |path|
  {
    if path[0] in patch.entries {
      UndecidedIsMissing(patch.entries[path[0]], path[1..]);
    }
  }

  /** At every path the merge reads as the patch where the patch decides it and as the base elsewhere. */
  lemma {:induction false} MergeByPath(base: Json, patch: Json, path: seq<string>)
    ensures KindAt(Overlay(base, patch), path)
            == if Decides(patch, path) then KindAt(patch, path) else KindAt(base, path)
    decreases |path|
  {
    if path != [] && base.Obj? && patch.Obj? && path[0] in base.entries && path[0] in patch.entries {
      MergeByPath(base.entries[path[0]], patch.entries[path[0]], path[1..]);
    } else if !Decides(patch, path) {
      UndecidedIsMissing(patch, path);
    }
  }

  /** Payloads that read the same at every path are the same. */
  lemma {:induction false} PathsDetermine(a: Json, b: Json)
    requires forall path :: KindAt(a, path) == KindAt(b, path)
    ensures a == b
    decreases a
  {
    assert KindAt(a, []) == KindAt(b, []);
    if a.Obj? {
      forall k
        ensures k in a.entries <==> k in b.entries
        ensures k in a.entries ==> a.entries[k] == b.entries[k]
      {
        PathsUnder(a, b, k);
        if k in a.entries {
          PathsDetermine(a.entries[k], b.entries[k]);
        }
      }
      assert a.entries == b.entries;
    } else {
      assert b == Leaf(a.text);
    }
  }

  lemma PathsUnder(a: Json, b: Json, k: string)
    requires a.Obj? && b.Obj? && forall path :: KindAt(a, path) == KindAt(b, path)
    ensures k in a.entries <==> k in b.entries
    ensures k in a.entries ==> forall path :: KindAt(a.entries[k], path) == KindAt(b.entries[k], path)
  {
    assert [k][1..] == [];
    assert KindAt(a, [k]) == KindAt(b, [k]);
    if k in a.entries {
      forall path
        ensures KindAt(a.entries[k], path) == KindAt(b.entries[k], path)
      {
        assert ([k] + path)[1..] == path;
        assert KindAt(a, [k] + path) == KindAt(b, [k] + path);
      }
    }
  }

  /** Applying the same patch twice is applying it once. */
  lemma MergeIdempotent(base: Fields, patch: Fields)
    ensures Merge(Merge(base, patch), patch) == Merge(base, patch)
  {
    var once := Overlay(Obj(base), Obj(patch));
    var twice := Overlay(once, Obj(patch));
    forall path
      ensures KindAt(twice, path) == KindAt(once, path)
    {
      MergeByPath(once, Obj(patch), path);
      MergeByPath(Obj(base), Obj(patch), path);
    }
    PathsDetermine(twice, once);
  }

  /** The empty mapping is a two-sided identity. */
  lemma MergeIdentity(fields: Fields)
    ensures Merge(fields, map[]) == fields && Merge(map[], fields) == fields
  {
  }

  // ----- When merging is associative -----

  /** On the way to the path, b replaces a mapping by a leaf and c puts a mapping back that says nothing about the
      path. */
  predicate Shadowed(b: Json, c: Json, path: seq<string>)
    decreases |path|
  {
    if path == [] then false
    else if b.Leaf? then c.Obj? && !Decides(c, path)
    else if c.Leaf? then false
    else path[0] in b.entries && path[0] in c.entries && Shadowed(b.entries[path[0]], c.entries[path[0]], path[1..])
  }

  lemma {:induction false} MergeDecides(b: Json, c: Json, path: seq<string>)
    ensures Decides(Overlay(b, c), path) <==> Decides(c, path) || (Decides(b, path) && !Shadowed(b, c, path))
    ensures Shadowed(b, c, path) ==> !Decides(c, path) && Decides(b, path) && KindAt(b, path) == Missing
    decreases |path|
  {
    if path != [] && b.Obj? && c.Obj? && path[0] in b.entries && path[0] in c.entries {
      MergeDecides(b.entries[path[0]], c.entries[path[0]], path[1..]);
    }
  }

  lemma GroupingAtPath(a: Json, b: Json, c: Json, path: seq<string>)
    ensures KindAt(Overlay(Overlay(a, b), c), path) == KindAt(Overlay(a, Overlay(b, c)), path)
            <==> (Shadowed(b, c, path) ==> KindAt(a, path) == Missing)
  {
    MergeByPath(Overlay(a, b), c, path);
    MergeByPath(a, b, path);
    MergeByPath(a, Overlay(b, c), path);
    MergeByPath(b, c, path);
    MergeDecides(b, c, path);
  }

  /** The base has nothing at any shadowed path. */
  ghost predicate ClearOf(a: Json, b: Json, c: Json) {
    forall path :: Shadowed(b, c, path) ==> KindAt(a, path) == Missing
  }

  lemma ClearGroups(a: Json, b: Json, c: Json)
    requires ClearOf(a, b, c)
    ensures Overlay(Overlay(a, b), c) == Overlay(a, Overlay(b, c))
  {
    var left, right := Overlay(Overlay(a, b), c), Overlay(a, Overlay(b, c));
    forall path
      ensures KindAt(left, path) == KindAt(right, path)
    {
      GroupingAtPath(a, b, c, path);
    }
    PathsDetermine(left, right);
  }

  lemma GroupingNeedsClear(a: Json, b: Json, c: Json)
    requires Overlay(Overlay(a, b), c) == Overlay(a, Overlay(b, c))
    ensures ClearOf(a, b, c)
  {
    forall path | Shadowed(b, c, path)
      ensures KindAt(a, path) == Missing
    {
      GroupingAtPath(a, b, c, path);
    }
  }

  /** Two patches may be merged first exactly when the base has nothing at any path where the first patch put a leaf
      over a mapping and the second put a mapping back without deciding that path. */
  lemma MergeAssociativeIff(a: Fields, b: Fields, c: Fields)
    ensures Merge(Merge(a, b), c) == Merge(a, Merge(b, c)) <==> ClearOf(Obj(a), Obj(b), Obj(c))
  {
    if ClearOf(Obj(a), Obj(b), Obj(c)) {
      ClearGroups(Obj(a), Obj(b), Obj(c));
    }
    if Merge(Merge(a, b), c) == Merge(a, Merge(b, c)) {
      GroupingNeedsClear(Obj(a), Obj(b), Obj(c));
    }
  }

  /** Three payloads that do not associate: the first patch puts a leaf over a mapping and the second an empty mapping
      over the leaf. Merged one by one they leave an empty mapping; merged first, they leave the base as it was. */
  lemma LeafBetweenDoesNotAssociate(k: string, x: string, value: Json, text: string)
    ensures var a: Fields := map[k := Obj(map[x := value])];
            var b: Fields, c: Fields := map[k := Leaf(text)], map[k := Obj(map[])];
            Merge(Merge(a, b), c) != Merge(a, Merge(b, c))
  {
    var a: Fields := map[k := Obj(map[x := value])];
    var b: Fields, c: Fields := map[k := Leaf(text)], map[k := Obj(map[])];
    assert Merge(a, b) == b;
    assert Merge(b, c)[k] == Obj(map[]);
    MergeIdentity(map[x := value]);
    assert Merge(a, Merge(b, c))[k] == Obj(map[x := value]);
    assert Merge(Merge(a, b), c)[k] == Obj(map[]);
    assert x in map[x := value];
  }

  lemma {:induction false} NoLeafBetween(a: Json, b: Json, c: Json, path: seq<string>)
    requires forall r :: !(KindAt(a, r).ObjAt? && KindAt(b, r).LeafAt? && KindAt(c, r).ObjAt?)
    requires Shadowed(b, c, path)
    ensures KindAt(a, path) == Missing
    decreases |path|
  {
    assert !(KindAt(a, []).ObjAt? && KindAt(b, []).LeafAt? && KindAt(c, []).ObjAt?);
    if a.Obj? && path[0] in a.entries && b.Obj? {
      var k := path[0];
      forall r
        ensures !(KindAt(a.entries[k], r).ObjAt? && KindAt(b.entries[k], r).LeafAt? && KindAt(c.entries[k], r).ObjAt?)
      {
        assert ([k] + r)[1..] == r;
        assert !(KindAt(a, [k] + r).ObjAt? && KindAt(b, [k] + r).LeafAt? && KindAt(c, [k] + r).ObjAt?);
      }
      NoLeafBetween(a.entries[k], b.entries[k], c.entries[k], path[1..]);
    }
  }

  /** In particular when the middle patch never puts a leaf where both outer payloads hold a mapping. */
  lemma MergeAssociative(a: Fields, b: Fields, c: Fields)
    requires forall r :: !(KindAt(Obj(a), r).ObjAt? && KindAt(Obj(b), r).LeafAt? && KindAt(Obj(c), r).ObjAt?)
    ensures Merge(Merge(a, b), c) == Merge(a, Merge(b, c))
  {
    forall path | Shadowed(Obj(b), Obj(c), path)
      ensures KindAt(Obj(a), path) == Missing
    {
      NoLeafBetween(Obj(a), Obj(b), Obj(c), path);
    }
    MergeAssociativeIff(a, b, c);
  }

  // ----- The version log -----

  datatype Row = Row(version: int, config: Fields)

  datatype Record = Record(version: int, config: Fields)

  /** The schema: `check` gives the canonical dump of a payload or refuses it. */
  datatype Schema = Schema(check: Fields -> Option<Fields>, defaults: Fields)

  /** Dumps validate to themselves and an empty payload validates to the defaults. */
  ghost predicate Lawful(s: Schema) {
    && (forall x :: s.check(x).Some? ==> s.check(s.check(x).value) == s.check(x))
    && s.check(map[]) == Some(s.defaults)
  }

  datatype State = State(log: seq<Row>, published: seq<Record>)

  /** How a call ends. A failed publication leaves the new version committed. */
  datatype Reply = Ok(record: Record) | Invalid | NotFound | PublishFailed

  /** COALESCE(MAX(version), 0). */
  function MaxVersion(log: seq<Row>): int {
    if log == [] then 0
    else
      var rest, v := MaxVersion(log[..|log| - 1]), log[|log| - 1].version;
      if |log| == 1 || v > rest then v else rest
  }

  function RowFor(log: seq<Row>, version: int): Option<Row> {
    if log == [] then None
    else if log[|log| - 1].version == version then Some(log[|log| - 1])
    else RowFor(log[..|log| - 1], version)
  }

  /** A stored payload through the schema; an empty one reads as the defaults. */
  function Loaded(s: Schema, config: Fields): Option<Fields> {
    if config != map[] then s.check(config) else Some(s.defaults)
  }

  /** The head: the row of the greatest version, or version 0 with the defaults. */
  function Current(s: Schema, log: seq<Row>): Option<Record> {
    if log == [] then Some(Record(0, s.defaults))
    else
      match RowFor(log, MaxVersion(log))
      case None => None
      case Some(row) =>
        match Loaded(s, row.config)
        case None => None
        case Some(config) => Some(Record(row.version, config))
  }

  class ConfigService {
    const schema: Schema
    var log: seq<Row>
    var published: seq<Record>

    constructor (schema: Schema)
      ensures this.schema == schema && View() == State([], [])
    {
      this.schema := schema;
      log, published := [], [];
    }

    function View(): State
      reads this
    {
      State(log, published)
    }

    method Publish(record: Record, delivered: bool) returns (r: Reply)
      modifies this`published
      ensures published == if delivered then old(published) + [record] else old(published)
      ensures r == if delivered then Ok(record) else PublishFailed
    {
      if !delivered {
        return PublishFailed;
      }
      published := published + [record];
      r := Ok(record);
    }

    /** Merges a patch onto the head, validates, commits a new version and announces it. */
    method Update(patch: Fields, delivered: bool) returns (r: Reply)
      modifies this`log, this`published
      ensures View() == Updated(schema, old(View()), patch, delivered)
      ensures r.Invalid? <==> Candidate(schema, old(log), patch) == None
      ensures r.Ok? || r.PublishFailed? ==>
                log == old(log) + [Row(MaxVersion(old(log)) + 1, Candidate(schema, old(log), patch).value)]
    {
      var current := Current(schema, log);
      if current == None {
        return Invalid;
      }
      var merged := DeepMerge(current.value.config, patch);
      var validated := schema.check(merged);
      if validated == None {
        return Invalid;
      }
      var next := MaxVersion(log) + 1;
      log := log + [Row(next, validated.value)];
      r := Publish(Record(next, validated.value), delivered);
    }

    /** Commits a copy of an earlier version's payload as a new version and announces it. */
    method Revert(target: int, delivered: bool) returns (r: Reply)
      modifies this`log, this`published
      ensures View() == Reverted(schema, old(View()), target, delivered)
      ensures r.NotFound? <==> RowFor(old(log), target) == None
    {
      var row := RowFor(log, target);
      if row == None {
        return NotFound;
      }
      var next := MaxVersion(log) + 1;
      log := log + [Row(next, row.value.config)];
      var validated := Loaded(schema, row.value.config);
      if validated == None {
        return Invalid;
      }
      r := Publish(Record(next, validated.value), delivered);
    }
  }

  /** The canonical payload an update would store. */
  function Candidate(s: Schema, log: seq<Row>, patch: Fields): Option<Fields> {
    match Current(s, log)
    case None => None
    case Some(head) => s.check(Merge(head.config, patch))
  }

  function Announced(published: seq<Record>, record: Record, delivered: bool): seq<Record> {
    if delivered then published + [record] else published
  }

  function Updated(s: Schema, st: State, patch: Fields, delivered: bool): State {
    match Candidate(s, st.log, patch)
    case None => st
    case Some(config) =>
      var next := MaxVersion(st.log) + 1;
      State(st.log + [Row(next, config)], Announced(st.published, Record(next, config), delivered))
  }

  function Reverted(s: Schema, st: State, target: int, delivered: bool): State {
    match RowFor(st.log, target)
    case None => st
    case Some(row) =>
      var next := MaxVersion(st.log) + 1;
      match Loaded(s, row.config)
      case None => st.(log := st.log + [Row(next, row.config)])
      case Some(config) =>
        State(st.log + [Row(next, row.config)], Announced(st.published, Record(next, config), delivered))
  }

  // ----- Every run of updates and reverts -----

  datatype Call = Update(patch: Fields, delivered: bool) | Revert(target: int, delivered: bool)

  function Step(s: Schema, st: State, c: Call): State {
    match c
    case Update(patch, delivered) => Updated(s, st, patch, delivered)
    case Revert(target, delivered) => Reverted(s, st, target, delivered)
  }

  function After(s: Schema, calls: seq<Call>): State {
    if calls == [] then State([], []) else Step(s, After(s, calls[..|calls| - 1]), calls[|calls| - 1])
  }

  /** Versions count up from 1 and every stored payload loads. */
  ghost predicate Numbered(s: Schema, log: seq<Row>) {
    forall i :: 0 <= i < |log| ==> log[i].version == i + 1 && Loaded(s, log[i].config).Some?
  }

  /** Every announcement is of a committed version with the payload that version reads as, in version order. */
  ghost predicate Faithful(s: Schema, st: State) {
    && (forall i :: 0 <= i < |st.published| ==>
          1 <= st.published[i].version <= |st.log|
          && Some(st.published[i].config) == Loaded(s, st.log[st.published[i].version - 1].config))
    && (forall i, j :: 0 <= i < j < |st.published| ==> st.published[i].version < st.published[j].version)
  }

  lemma {:induction false} NumberedMax(s: Schema, log: seq<Row>)
    requires Numbered(s, log)
    ensures MaxVersion(log) == |log|
  {
    if log == [] {
    } else {
      NumberedMax(s, log[..|log| - 1]);
    }
  }

  lemma {:induction false} NumberedRow(s: Schema, log: seq<Row>, version: int)
    requires Numbered(s, log)
    ensures RowFor(log, version) == if 1 <= version <= |log| then Some(log[version - 1]) else None
  {
    if log == [] {
    } else {
      NumberedRow(s, log[..|log| - 1], version);
    }
  }

  /** What one committed row does to the log and the announcements. */
  lemma OneMoreVersion(s: Schema, st: State, config: Fields, delivered: bool)
    requires Numbered(s, st.log) && Faithful(s, st) && Loaded(s, config).Some?
    ensures var next := |st.log| + 1;
            var after := State(st.log + [Row(next, config)],
                               Announced(st.published, Record(next, Loaded(s, config).value), delivered));
            Numbered(s, after.log) && Faithful(s, after)
  {
  }

  lemma CanonicalLoads(s: Schema, x: Fields)
    requires Lawful(s) && s.check(x).Some?
    ensures Loaded(s, s.check(x).value) == s.check(x)
  {
    var y := s.check(x).value;
    assert s.check(y) == Some(y);
    if y == map[] {
      assert s.check(map[]) == Some(s.defaults);
    }
  }

  /** The call committed a row for that payload, and announced it unless the announcement was lost. */
  ghost predicate Committed(s: Schema, st: State, config: Fields, delivered: bool, after: State) {
    && Loaded(s, config).Some?
    && after.log == st.log + [Row(|st.log| + 1, config)]
    && after.published == Announced(st.published, Record(|st.log| + 1, Loaded(s, config).value), delivered)
  }

  lemma UpdateCommits(s: Schema, st: State, patch: Fields, delivered: bool)
    requires Lawful(s) && Numbered(s, st.log)
    ensures var candidate := Candidate(s, st.log, patch);
            if candidate == None then Updated(s, st, patch, delivered) == st
            else Committed(s, st, candidate.value, delivered, Updated(s, st, patch, delivered))
  {
    NumberedMax(s, st.log);
    if Candidate(s, st.log, patch).Some? {
      CanonicalLoads(s, Merge(Current(s, st.log).value.config, patch));
    }
  }

  lemma RevertCommits(s: Schema, st: State, target: int, delivered: bool)
    requires Lawful(s) && Numbered(s, st.log)
    ensures if 1 <= target <= |st.log|
            then Committed(s, st, st.log[target - 1].config, delivered, Reverted(s, st, target, delivered))
            else Reverted(s, st, target, delivered) == st
  {
    NumberedMax(s, st.log);
    NumberedRow(s, st.log, target);
  }

  /** One call either leaves log and announcements as they were (a refused patch, an unknown target) or commits one
      row after the old ones and announces exactly that version, unless the announcement is lost. */
  lemma StepAppends(s: Schema, st: State, c: Call)
    requires Lawful(s) && Numbered(s, st.log) && Faithful(s, st)
    ensures var after := Step(s, st, c);
            && Numbered(s, after.log) && Faithful(s, after) && st.log <= after.log
            && (after == st || exists config :: Committed(s, st, config, c.delivered, after))
  {
    match c
    case Update(patch, delivered) =>
      UpdateCommits(s, st, patch, delivered);
      var candidate := Candidate(s, st.log, patch);
      if candidate.Some? {
        OneMoreVersion(s, st, candidate.value, delivered);
        assert Committed(s, st, candidate.value, delivered, Step(s, st, c));
      }
    case Revert(target, delivered) =>
      RevertCommits(s, st, target, delivered);
      if 1 <= target <= |st.log| {
        OneMoreVersion(s, st, st.log[target - 1].config, delivered);
        assert Committed(s, st, st.log[target - 1].config, delivered, Step(s, st, c));
      }
  }

  /** The head of a numbered log is its last row. */
  lemma HeadIsLast(s: Schema, log: seq<Row>)
    requires Numbered(s, log) && log != []
    ensures Current(s, log) == Some(Record(|log|, Loaded(s, log[|log| - 1].config).value))
  {
    NumberedMax(s, log);
    NumberedRow(s, log, |log|);
  }

  /** Over every run: versions are 1, 2, 3, ..., and announcements are of committed versions, in order. */
  lemma {:induction false} LogGrowsByOne(s: Schema, calls: seq<Call>)
    requires Lawful(s)
    ensures Numbered(s, After(s, calls).log) && Faithful(s, After(s, calls))
  {
    if calls == [] {
    } else {
      var n := |calls| - 1;
      LogGrowsByOne(s, calls[..n]);
      StepAppends(s, After(s, calls[..n]), calls[n]);
    }
  }

  /** A committed row is never changed by anything that happens later. */
  lemma {:induction false} RowsNeverChange(s: Schema, calls: seq<Call>, k: nat)
    requires Lawful(s) && k <= |calls|
    ensures After(s, calls[..k]).log <= After(s, calls).log
  {
    if k == |calls| {
      assert calls[..k] == calls;
    } else {
      var front, last := calls[..|calls| - 1], calls[|calls| - 1];
      assert front[..k] == calls[..k];
      RowsNeverChange(s, front, k);
      LogGrowsByOne(s, front);
      StepAppends(s, After(s, front), last);
      PrefixOfPrefix(After(s, calls[..k]).log, After(s, front).log, After(s, calls).log);
    }
  }

  lemma PrefixOfPrefix(a: seq<Row>, b: seq<Row>, c: seq<Row>)
    requires a <= b && b <= c
    ensures a <= c
  {
  }

  /** The call will commit a version: its patch validates, or its target exists. */
  predicate Commits(s: Schema, st: State, c: Call) {
    match c
    case Update(patch, _) => Candidate(s, st.log, patch).Some?
    case Revert(target, _) => 1 <= target <= |st.log|
  }

  /** No call that committed a version lost its announcement. */
  ghost predicate NothingLost(s: Schema, calls: seq<Call>) {
    calls == [] ||
    var front, last := calls[..|calls| - 1], calls[|calls| - 1];
    NothingLost(s, front) && (Commits(s, After(s, front), last) ==> last.delivered)
  }

  lemma CommitsIffGrows(s: Schema, st: State, c: Call)
    requires Lawful(s) && Numbered(s, st.log)
    ensures var after := Step(s, st, c);
            if Commits(s, st, c) then
              |after.log| == |st.log| + 1 && |after.published| == |st.published| + (if c.delivered then 1 else 0)
            else after == st
  {
    match c
    case Update(patch, delivered) => UpdateCommits(s, st, patch, delivered);
    case Revert(target, delivered) => RevertCommits(s, st, target, delivered);
  }

  /** The announced versions are all the committed ones exactly when no announcement was lost. */
  lemma {:induction false} AllAnnouncedIff(s: Schema, calls: seq<Call>)
    requires Lawful(s)
    ensures |After(s, calls).published| <= |After(s, calls).log|
    ensures |After(s, calls).published| == |After(s, calls).log| <==> NothingLost(s, calls)
  {
    if calls == [] {
    } else {
      var front, last := calls[..|calls| - 1], calls[|calls| - 1];
      AllAnnouncedIff(s, front);
      LogGrowsByOne(s, front);
      CommitsIffGrows(s, After(s, front), last);
    }
  }

  /** One update whose announcement is lost: version 1 is committed and nobody is told. */
  lemma LostAnnouncement(s: Schema)
    requires Lawful(s)
    ensures After(s, [Update(map[], false)]).published == [] && |After(s, [Update(map[], false)]).log| == 1
  {
    var calls := [Update(map[], false)];
    assert calls[..|calls| - 1] == [];
    MergeIdentity(s.defaults);
    assert s.check(s.check(map[]).value) == s.check(map[]);
    assert Candidate(s, [], map[]) == Some(s.defaults);
  }

  /** When all of them are announced, the i-th announcement is version i. */
  lemma AnnouncedInOrder(s: Schema, calls: seq<Call>, i: nat)
    requires Lawful(s) && NothingLost(s, calls) && i < |After(s, calls).log|
    ensures |After(s, calls).published| == |After(s, calls).log|
    ensures After(s, calls).published[i].version == i + 1
    ensures Some(After(s, calls).published[i].config) == Loaded(s, After(s, calls).log[i].config)
  {
    AllAnnouncedIff(s, calls);
    LogGrowsByOne(s, calls);
    IncreasingFills(s, After(s, calls), i);
  }

  /** Increasing version numbers leave room below and above themselves. */
  lemma {:induction false} IncreasingFills(s: Schema, st: State, i: nat)
    requires Faithful(s, st) && i < |st.published|
    ensures i + 1 <= st.published[i].version <= |st.log| - (|st.published| - 1 - i)
  {
    LowerBound(s, st, i);
    UpperBound(s, st, i);
  }

  lemma {:induction false} LowerBound(s: Schema, st: State, i: nat)
    requires Faithful(s, st) && i < |st.published|
    ensures i + 1 <= st.published[i].version
  {
    if i == 0 {
    } else {
      LowerBound(s, st, i - 1);
    }
  }

  lemma {:induction false} UpperBound(s: Schema, st: State, i: nat)
    requires Faithful(s, st) && i < |st.published|
    ensures st.published[i].version <= |st.log| - (|st.published| - 1 - i)
    decreases |st.published| - i
  {
    if i + 1 < |st.published| {
      UpperBound(s, st, i + 1);
    }
  }

  /** Reverting to a version makes the head read as that version does, under a new number. */
  lemma RevertRestores(s: Schema, calls: seq<Call>, target: int, delivered: bool)
    requires Lawful(s) && 1 <= target <= |After(s, calls).log|
    ensures var st := After(s, calls);
            var head := Current(s, Step(s, st, Revert(target, delivered)).log);
            head.Some? && head.value.version == |st.log| + 1
            && Some(head.value.config) == Loaded(s, st.log[target - 1].config)
  {
    var st := After(s, calls);
    LogGrowsByOne(s, calls);
    RevertCommits(s, st, target, delivered);
    StepAppends(s, st, Revert(target, delivered));
    HeadIsLast(s, Step(s, st, Revert(target, delivered)).log);
  }

  /** The head of a reachable log always loads, to a canonical payload. */
  lemma HeadIsCanonical(s: Schema, log: seq<Row>)
    requires Lawful(s) && Numbered(s, log)
    ensures Current(s, log).Some? && s.check(Current(s, log).value.config) == Some(Current(s, log).value.config)
  {
    assert s.check(map[]) == Some(s.defaults) && s.check(s.check(map[]).value) == s.check(map[]);
    if log != [] {
      HeadIsLast(s, log);
      var stored := log[|log| - 1].config;
      assert s.check(stored).Some? ==> s.check(s.check(stored).value) == s.check(stored);
    }
  }

  /** An update with an empty patch adds a version that reads as the head did. */
  lemma EmptyPatchKeepsConfig(s: Schema, calls: seq<Call>, delivered: bool)
    requires Lawful(s)
    ensures var st := After(s, calls);
            var head := Current(s, st.log);
            head.Some?
            && Current(s, Step(s, st, Update(map[], delivered)).log) == Some(head.value.(version := |st.log| + 1))
  {
    var st := After(s, calls);
    LogGrowsByOne(s, calls);
    HeadIsCanonical(s, st.log);
    var head := Current(s, st.log).value.config;
    MergeIdentity(head);
    assert Candidate(s, st.log, map[]) == Some(head);
    UpdateCommits(s, st, map[], delivered);
    StepAppends(s, st, Update(map[], delivered));
    HeadIsLast(s, Step(s, st, Update(map[], delivered)).log);
    CanonicalLoads(s, head);
  }

  /** The payload reads as the patch wherever the patch decides, and as the base elsewhere. */
  ghost predicate ReadsOver(merged: Fields, base: Fields, patch: Fields) {
    forall path ::
      KindAt(Obj(merged), path)
      == if Decides(Obj(patch), path) then KindAt(Obj(patch), path) else KindAt(Obj(base), path)
  }

  lemma MergeReadsOver(merged: Fields, base: Fields, patch: Fields)
    requires ReadsOver(merged, base, patch)
    ensures merged == Merge(base, patch)
  {
    forall path
      ensures KindAt(Obj(merged), path) == KindAt(Overlay(Obj(base), Obj(patch)), path)
    {
      MergeByPath(Obj(base), Obj(patch), path);
    }
    PathsDetermine(Obj(merged), Overlay(Obj(base), Obj(patch)));
  }

  /** In every reachable state an update reads the patch over the head, path by path: if the result validates, its
      canonical form becomes the head under the next number, and otherwise nothing changes. */
  lemma UpdatedHead(s: Schema, calls: seq<Call>, patch: Fields, delivered: bool, merged: Fields)
    requires Lawful(s)
    requires var head := Current(s, After(s, calls).log); head.Some? ==> ReadsOver(merged, head.value.config, patch)
    ensures var st, after := After(s, calls), Step(s, After(s, calls), Update(patch, delivered));
            if s.check(merged) == None then after == st
            else Current(s, after.log) == Some(Record(|st.log| + 1, s.check(merged).value))
  {
    var st := After(s, calls);
    LogGrowsByOne(s, calls);
    HeadIsCanonical(s, st.log);
    MergeReadsOver(merged, Current(s, st.log).value.config, patch);
    UpdateCommits(s, st, patch, delivered);
    if s.check(merged).Some? {
      StepAppends(s, st, Update(patch, delivered));
      HeadIsLast(s, Step(s, st, Update(patch, delivered)).log);
      CanonicalLoads(s, merged);
    }
  }
}
