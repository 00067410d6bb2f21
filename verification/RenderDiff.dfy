/**
 DiffResources of internal/render/diff.go: what a reconcile of the rendered source would
 create, update or delete on the cluster, and exactly when doing so leaves nothing to do.
 */
module RenderDiff {
  import opened Wrappers
  import opened ObjectTree
  import opened Sorting
  import Hunks
  import Text

  /** Group, version and kind with namespace and name, exactly as the object states them. */
  datatype ResourceKey = ResourceKey(group: string, version: string, kind: string, ns: string, name: string)

  /** A rendered object with its key. */
  datatype Manifest = Manifest(key: ResourceKey, body: Json)

  /** The API server's own identity of an object. */
  type ObjectId = nat

  /**
   The API server: which object a key names, and what an object that was written under one
   key reads as under another.  Keys of several versions name one object, and so may keys
   that differ in other ways, such as a namespace on an object of a cluster-scoped kind.
   */
  datatype Server = Server(idOf: ResourceKey -> ObjectId, convert: (Json, ResourceKey, ResourceKey) -> Json)

  /** A live object: the key under which it was written, and what it reads as under that key. */
  datatype Stored = Stored(key: ResourceKey, body: Json)

  function Read(server: Server, live: Stored, key: ResourceKey): Json {
    if live.key == key then live.body else server.convert(live.body, live.key, key)
  }

  /** The live objects, and the keys whose fetch fails with something other than NotFound. */
  datatype Cluster = Cluster(server: Server, live: map<ObjectId, Stored>, broken: map<ResourceKey, string>)

  function IdOf(c: Cluster, key: ResourceKey): ObjectId {
    c.server.idOf(key)
  }

  datatype Fetched = NotFound | Failed(error: string) | Found(body: Json)

  function GetLive(c: Cluster, key: ResourceKey): Fetched {
    if key in c.broken then Failed(c.broken[key])
    else if IdOf(c, key) in c.live then Found(Read(c.server, c.live[IdOf(c, key)], key))
    else NotFound
  }

  datatype Status = InSync | Drifted | MissingOnCluster | ExtraOnCluster | RenderError

  datatype Would = Nothing | Create | Update | Delete

  datatype Row = Row(key: ResourceKey, status: Status, would: Would, error: string, hunk: seq<Hunks.Line>)

  /** The libraries used: YAML marshalling and the line matcher. */
  datatype Tools = Tools(marshal: Json -> Result<string>, opcodes: Hunks.Matcher)

  // ---------- the rows ----------

  function ErrorText(r: Result<string>): string {
    if r.Err? then r.error else "<nil>"
  }

  function HunkOf(tools: Tools, desired: string, live: string): seq<Hunks.Line> {
    var d, l := Hunks.Lines(desired), Hunks.Lines(live);
    Hunks.TilesInBounds(tools.opcodes(d, l), d, l, 0, 0);
    Hunks.HunkLines(tools.opcodes(d, l), d, l)
  }

  function Classify(c: Cluster, tools: Tools, want: Manifest): Row {
    match GetLive(c, want.key)
    case NotFound => Row(want.key, MissingOnCluster, Create, "", [])
    case Failed(e) => Row(want.key, RenderError, Nothing, e, [])
    case Found(live) =>
      var w, l := tools.marshal(Cleaned(want.body)), tools.marshal(Cleaned(live));
      if w.Err? || l.Err? then
        Row(want.key, RenderError, Nothing, "serialise yaml: " + ErrorText(w) + " / " + ErrorText(l), [])
      else if w.value == l.value then Row(want.key, InSync, Nothing, "", [])
      else Row(want.key, Drifted, Update, "", HunkOf(tools, w.value, l.value))
  }

  function RenderedRows(c: Cluster, tools: Tools, rendered: seq<Manifest>): seq<Row> {
    seq(|rendered|, i requires 0 <= i < |rendered| => Classify(c, tools, rendered[i]))
  }

  function RenderedKeys(rendered: seq<Manifest>): set<ResourceKey> {
    set m | m in rendered :: m.key
  }

  /** The row of an inventory entry that is not rendered; none if the cluster does not have it. */
  function ExtraRow(c: Cluster, key: ResourceKey): seq<Row> {
    match GetLive(c, key)
    case NotFound => []
    case Failed(e) => [Row(key, ExtraOnCluster, Delete, e, [])]
    case Found(_) => [Row(key, ExtraOnCluster, Delete, "", [])]
  }

  function ExtraRows(c: Cluster, keys: set<ResourceKey>, inventory: seq<ResourceKey>): seq<Row> {
    if inventory == [] then []
    else
      var n := |inventory| - 1;
      ExtraRows(c, keys, inventory[..n]) + if inventory[n] in keys then [] else ExtraRow(c, inventory[n])
  }

  /** All rows, before they are sorted. */
  function DiffRows(c: Cluster, tools: Tools, rendered: seq<Manifest>, inventory: seq<ResourceKey>): seq<Row> {
    RenderedRows(c, tools, rendered) + ExtraRows(c, RenderedKeys(rendered), inventory)
  }

  /** The order of the response: by kind, namespace and name. */
  predicate RowLess(a: Row, b: Row) {
    if a.key.kind != b.key.kind then Less(a.key.kind, b.key.kind)
    else if a.key.ns != b.key.ns then Less(a.key.ns, b.key.ns)
    else Less(a.key.name, b.key.name)
  }

  lemma RowLessIsStrictWeak()
    ensures StrictWeak(RowLess)
  {
    forall a, b ensures RowLess(a, b) ==> !RowLess(b, a) {
      LessIsTotal(a.key.kind, b.key.kind);
      LessIsTotal(a.key.ns, b.key.ns);
      LessIsTotal(a.key.name, b.key.name);
    }
    forall a, b, c ensures !RowLess(b, a) && !RowLess(c, b) ==> !RowLess(c, a) {
      RowLessWeak(a, b, c);
    }
  }

  lemma RowLessWeak(a: Row, b: Row, c: Row)
    ensures !RowLess(b, a) && !RowLess(c, b) ==> !RowLess(c, a)
  {
    LessIsStrictWeak(a.key.kind, b.key.kind, c.key.kind);
    LessIsStrictWeak(a.key.ns, b.key.ns, c.key.ns);
    LessIsStrictWeak(a.key.name, b.key.name, c.key.name);
    LessIsTotal(a.key.kind, b.key.kind);
    LessIsTotal(b.key.kind, c.key.kind);
    LessIsTotal(a.key.ns, b.key.ns);
    LessIsTotal(b.key.ns, c.key.ns);
  }

  // ---------- what the rows mean ----------

  /**
   The row of a rendered object, from what the cluster holds: a failing fetch is reported
   and nothing done; a missing object is created; one that reads as the rendered one is left
   alone; any other is updated, and its hunk spells the rendered text on the desired side
   and the live text on the live side, each with its line numbers.
   */
  lemma ClassifyMeans(c: Cluster, tools: Tools, m: Manifest)
    ensures var row, id := Classify(c, tools, m), c.server.idOf(m.key);
            && row.key == m.key
            && (m.key in c.broken ==> row == Row(m.key, RenderError, Nothing, c.broken[m.key], []))
            && (m.key !in c.broken && id !in c.live ==> row == Row(m.key, MissingOnCluster, Create, "", []))
            && (m.key !in c.broken && id in c.live ==>
                  var w, l := tools.marshal(Cleaned(m.body)), tools.marshal(Cleaned(Read(c.server, c.live[id], m.key)));
                  if w.Err? || l.Err? then
                    row == Row(m.key, RenderError, Nothing,
                               "serialise yaml: " + (if w.Err? then w.error else "<nil>") + " / " +
                               (if l.Err? then l.error else "<nil>"), [])
                  else if w == l then row == Row(m.key, InSync, Nothing, "", [])
                  else row.status == Drifted && row.would == Update && row.error == "" &&
                       HunkSpells(row.hunk, w.value, l.value))
  {
    if m.key !in c.broken && IdOf(c, m.key) in c.live {
      var w, l := tools.marshal(Cleaned(m.body)),
                  tools.marshal(Cleaned(Read(c.server, c.live[IdOf(c, m.key)], m.key)));
      if w.Ok? && l.Ok? {
        HunkOfSpells(tools, w.value, l.value);
      }
    }
  }

  /** The hunk shows the first text as desired and the second as live, and a change if the trimmed texts differ. */
  ghost predicate HunkSpells(hunk: seq<Hunks.Line>, desired: string, live: string) {
    && Hunks.DesiredSide(hunk) == Hunks.Numbered(Hunks.Lines(desired), 0)
    && Hunks.LiveSide(hunk) == Hunks.Numbered(Hunks.Lines(live), 0)
    && ((exists x :: x in hunk && x.kind != Hunks.Context) <==>
        Text.TrimNewlines(desired) != Text.TrimNewlines(live))
  }

  lemma HunkOfSpells(tools: Tools, desired: string, live: string)
    ensures HunkSpells(HunkOf(tools, desired, live), desired, live)
  {
    var d, l := Hunks.Lines(desired), Hunks.Lines(live);
    Hunks.HunkSpellsBothTexts(desired, live, tools.opcodes(d, l));
    Hunks.ChangeShownExactlyWhenTextsDiffer(desired, live, tools.opcodes(d, l));
  }

  /** Every drifted row of a response is of a rendered object that is there, and shows how it differs from it. */
  lemma DriftedRowsShowTheDrift(c: Cluster, tools: Tools, rendered: seq<Manifest>, inventory: seq<ResourceKey>,
                                rows: seq<Row>, row: Row)
    requires multiset(rows) == multiset(DiffRows(c, tools, rendered, inventory))
    requires row in rows && row.status == Drifted
    ensures exists m: Manifest ::
              && m in rendered && m.key == row.key && m.key !in c.broken && c.server.idOf(m.key) in c.live
              && ShowsDrift(c, tools, m, row)
  {
    assert row in multiset(rows);
    ExtraRowsStatus(c, RenderedKeys(rendered), inventory);
    var i :| 0 <= i < |rendered| && RenderedRows(c, tools, rendered)[i] == row;
    assert rendered[i] in rendered;
    ClassifyMeans(c, tools, rendered[i]);
    assert ShowsDrift(c, tools, rendered[i], row);
  }

  ghost predicate ShowsDrift(c: Cluster, tools: Tools, m: Manifest, row: Row)
    requires c.server.idOf(m.key) in c.live
  {
    var w := tools.marshal(Cleaned(m.body));
    var l := tools.marshal(Cleaned(Read(c.server, c.live[c.server.idOf(m.key)], m.key)));
    w.Ok? && l.Ok? && w != l && row.would == Update && HunkSpells(row.hunk, w.value, l.value)
  }

  lemma {:induction false} ExtraRowsStatus(c: Cluster, keys: set<ResourceKey>, inventory: seq<ResourceKey>)
    ensures forall r | r in ExtraRows(c, keys, inventory) ::
              && r.status == ExtraOnCluster && r.would == Delete && r.hunk == []
              && r.error == if r.key in c.broken then c.broken[r.key] else ""
    decreases |inventory|
  {
    if inventory != [] {
      ExtraRowsStatus(c, keys, inventory[..|inventory| - 1]);
    }
  }

  /** The rows of a response are by kind, then by namespace, then by name. */
  lemma RowsInOrder(rows: seq<Row>)
    requires Sorted(rows, RowLess)
    ensures forall i, j | 0 <= i < j < |rows| ::
              var a, b := rows[i].key, rows[j].key;
              && (a.kind == b.kind || Less(a.kind, b.kind))
              && (a.kind == b.kind ==> a.ns == b.ns || Less(a.ns, b.ns))
              && (a.kind == b.kind && a.ns == b.ns ==> a.name == b.name || Less(a.name, b.name))
  {
    forall i, j | 0 <= i < j < |rows| ensures !RowLess(rows[j], rows[i]) {}
    forall i, j | 0 <= i < j < |rows|
      ensures var a, b := rows[i].key, rows[j].key;
              && (a.kind == b.kind || Less(a.kind, b.kind))
              && (a.kind == b.kind ==> a.ns == b.ns || Less(a.ns, b.ns))
              && (a.kind == b.kind && a.ns == b.ns ==> a.name == b.name || Less(a.name, b.name))
    {
      LessIsTotal(rows[i].key.kind, rows[j].key.kind);
      LessIsTotal(rows[i].key.ns, rows[j].key.ns);
      LessIsTotal(rows[i].key.name, rows[j].key.name);
    }
  }

  // ---------- the code ----------

  method ClassifyOne(c: Cluster, tools: Tools, want: Manifest) returns (out: Row)
    ensures out == Classify(c, tools, want)
  {
    out := Row(want.key, RenderError, Nothing, "", []);
    match GetLive(c, want.key) {
      case NotFound =>
        out := out.(status := MissingOnCluster, would := Create);
      case Failed(e) =>
        out := out.(error := e);
      case Found(live) =>
        var w, l := tools.marshal(Cleaned(want.body)), tools.marshal(Cleaned(live));
        if w.Err? || l.Err? {
          out := out.(error := "serialise yaml: " + ErrorText(w) + " / " + ErrorText(l));
          return;
        }
        if w.value == l.value {
          out := out.(status := InSync);
          return;
        }
        var ops := tools.opcodes(Hunks.Lines(w.value), Hunks.Lines(l.value));
        Hunks.TilesInBounds(ops, Hunks.Lines(w.value), Hunks.Lines(l.value), 0, 0);
        var lines := Hunks.ComputeHunks(w.value, l.value, ops);
        out := out.(status := Drifted, would := Update, hunk := lines);
    }
  }

  method DiffResources(c: Cluster, tools: Tools, rendered: seq<Manifest>, inventory: seq<ResourceKey>)
    returns (rows: seq<Row>)
    ensures multiset(rows) == multiset(DiffRows(c, tools, rendered, inventory))
    ensures Sorted(rows, RowLess)
  {
    rows := [];
    var renderedKeys: set<ResourceKey> := {};
    for i := 0 to |rendered|
      invariant rows == RenderedRows(c, tools, rendered)[..i]
      invariant renderedKeys == RenderedKeys(rendered[..i])
    {
      assert rendered[..i + 1] == rendered[..i] + [rendered[i]];
      renderedKeys := renderedKeys + {rendered[i].key};
      var row := ClassifyOne(c, tools, rendered[i]);
      rows := rows + [row];
    }
    assert rendered[..|rendered|] == rendered;
    for i := 0 to |inventory|
      invariant rows == RenderedRows(c, tools, rendered) + ExtraRows(c, renderedKeys, inventory[..i])
    {
      assert inventory[..i + 1][..i] == inventory[..i];
      var inv := inventory[i];
      if inv !in renderedKeys {
        var extra := Row(inv, ExtraOnCluster, Delete, "", []);
        match GetLive(c, inv) {
          case NotFound =>
          case Failed(e) => rows := rows + [extra.(error := e)];
          case Found(_) => rows := rows + [extra];
        }
      }
    }
    assert inventory[..|inventory|] == inventory;
    RowLessIsStrictWeak();
    rows := Sort(rows, RowLess);
  }

  // ---------- what the API server adds to an object ----------

  /** The server's own fields: a status block, and values for some of the seven metadata fields. */
  datatype Noise = Noise(status: Option<Json>, metadata: map<string, Json>)

  ghost predicate IsNoise(n: Noise) {
    n.metadata.Keys <= NoiseSet()
  }

  /** The object as the server keeps it: its own fields replace the ones that were sent. */
  function Served(j: Json, n: Noise): Json {
    if !j.JMap? then j
    else
      var f := j.fields - {"status"};
      var f1 := if n.status.Some? then f["status" := n.status.value] else f;
      if HasMetadata(j) then JMap(f1["metadata" := JMap(j.fields["metadata"].fields - NoiseSet() + n.metadata)])
      else if n.metadata == map[] then JMap(f1)
      else JMap(f1["metadata" := JMap(n.metadata)])
  }

  predicate HasMetadata(j: Json) {
    j.JMap? && "metadata" in j.fields && j.fields["metadata"].JMap?
  }

  /**
   The server's fields are invisible to the comparison exactly when the object has a
   metadata map to put them in, or none go into the metadata.
   */
  lemma NoiseIsInvisible(j: Json, n: Noise)
    requires j.JMap? && IsNoise(n)
    ensures Cleaned(Served(j, n)) == Cleaned(j) <==> HasMetadata(j) || n.metadata == map[]
  {
    if HasMetadata(j) {
      NoiseInMetadata(j, n);
    } else if n.metadata == map[] {
      NoiseInStatus(j, n);
    } else {
      NoiseShows(j, n);
    }
  }

  /** Without a metadata map of its own the object comes back with one. */
  lemma NoiseShows(j: Json, n: Noise)
    requires j.JMap? && !HasMetadata(j) && n.metadata != map[]
    ensures Cleaned(Served(j, n)) != Cleaned(j)
  {
    CleanedMetadata(Served(j, n));
    CleanedMetadata(j);
  }

  lemma CleanedMetadata(j: Json)
    requires j.JMap?
    ensures HasMetadata(Cleaned(j)) <==> HasMetadata(j)
  {
    var c := Copied(j);
    assert c.fields.Keys == j.fields.Keys;
    if "metadata" in j.fields {
      assert c.fields["metadata"] == Copied(j.fields["metadata"]);
      assert Strip(c).fields["metadata"].JMap? <==> c.fields["metadata"].JMap?;
    }
  }

  lemma NoiseInMetadata(j: Json, n: Noise)
    requires HasMetadata(j) && IsNoise(n)
    ensures Cleaned(Served(j, n)) == Cleaned(j)
  {
    var s := Served(j, n);
    var cs, cj := Copied(s).fields, Copied(j).fields;
    assert Copied(s.fields["metadata"]).fields - NoiseSet() == Copied(j.fields["metadata"]).fields - NoiseSet();
    assert StripMetadata(cs) - {"status"} == StripMetadata(cj) - {"status"};
  }

  lemma NoiseInStatus(j: Json, n: Noise)
    requires j.JMap? && !HasMetadata(j) && n.metadata == map[]
    ensures Cleaned(Served(j, n)) == Cleaned(j)
  {
    var s := Served(j, n);
    assert StripMetadata(Copied(s).fields) - {"status"} == StripMetadata(Copied(j).fields) - {"status"};
  }

  // ---------- carrying the rows out ----------

  /** The rendered object with that key. */
  function Desired(rendered: seq<Manifest>, key: ResourceKey): Option<Json> {
    if rendered == [] then None
    else if rendered[0].key == key then Some(rendered[0].body)
    else Desired(rendered[1..], key)
  }

  /** What writing the rendered object with that key stores. */
  function Written(rendered: seq<Manifest>, key: ResourceKey, n: Noise): Option<Stored> {
    match Desired(rendered, key)
    case None => None
    case Some(body) => Some(Stored(key, Served(body, n)))
  }

  function LiveAt(c: Cluster, id: ObjectId): Option<Stored> {
    if id in c.live then Some(c.live[id]) else None
  }

  function WithLive(c: Cluster, id: ObjectId, live: Option<Stored>): Cluster {
    c.(live := if live.Some? then c.live[id := live.value] else c.live - {id})
  }

  predicate IsWrite(row: Row) {
    row.would == Create || row.would == Update
  }

  /** What one row does to the object that its key names. */
  function ApplyRow(c: Cluster, row: Row, rendered: seq<Manifest>, noise: ObjectId -> Noise): Cluster {
    var id := IdOf(c, row.key);
    if row.would == Delete then WithLive(c, id, None)
    else if IsWrite(row) then WithLive(c, id, Written(rendered, row.key, noise(id)))
    else c
  }

  function ApplyRows(c: Cluster, rows: seq<Row>, rendered: seq<Manifest>, noise: ObjectId -> Noise): Cluster
    decreases |rows|
  {
    if rows == [] then c else ApplyRows(ApplyRow(c, rows[0], rendered, noise), rows[1..], rendered, noise)
  }

  lemma {:induction false} ApplyAppend(c: Cluster, xs: seq<Row>, ys: seq<Row>, rendered: seq<Manifest>,
                                       noise: ObjectId -> Noise)
    ensures ApplyRows(c, xs + ys, rendered, noise) == ApplyRows(ApplyRows(c, xs, rendered, noise), ys, rendered, noise)
    decreases |xs|
  {
    if xs == [] {
      assert xs + ys == ys;
    } else {
      assert (xs + ys)[1..] == xs[1..] + ys;
      ApplyAppend(ApplyRow(c, xs[0], rendered, noise), xs[1..], ys, rendered, noise);
    }
  }

  lemma {:induction false} ServerStays(c: Cluster, rows: seq<Row>, rendered: seq<Manifest>, noise: ObjectId -> Noise)
    ensures ApplyRows(c, rows, rendered, noise).broken == c.broken
    ensures ApplyRows(c, rows, rendered, noise).server == c.server
    decreases |rows|
  {
    if rows != [] {
      ServerStays(ApplyRow(c, rows[0], rendered, noise), rows[1..], rendered, noise);
    }
  }

  // ---------- what is left of one object ----------

  /** The key of the last row that writes the object. */
  function LastWrite(server: Server, rows: seq<Row>, id: ObjectId): Option<ResourceKey> {
    if rows == [] then None
    else
      var later := LastWrite(server, rows[1..], id);
      if later.Some? then later
      else if server.idOf(rows[0].key) == id && IsWrite(rows[0]) then Some(rows[0].key)
      else None
  }

  lemma {:induction false} LastWriteIs(server: Server, rows: seq<Row>, id: ObjectId)
    ensures match LastWrite(server, rows, id)
            case None => forall r | r in rows && server.idOf(r.key) == id :: !IsWrite(r)
            case Some(k) => server.idOf(k) == id && exists r :: r in rows && r.key == k && IsWrite(r)
  {
    if rows != [] {
      LastWriteIs(server, rows[1..], id);
      assert forall r :: r in rows <==> r == rows[0] || r in rows[1..];
    }
  }

  /** An object that no row deletes is what the last write made of it, or what it was. */
  lemma {:induction false} LiveAfterWrites(c: Cluster, rows: seq<Row>, rendered: seq<Manifest>,
                                           noise: ObjectId -> Noise, id: ObjectId)
    requires forall r | r in rows && IdOf(c, r.key) == id :: r.would != Delete
    ensures LiveAt(ApplyRows(c, rows, rendered, noise), id) ==
            match LastWrite(c.server, rows, id)
            case None => LiveAt(c, id)
            case Some(k) => Written(rendered, k, noise(id))
    decreases |rows|
  {
    if rows != [] {
      var row, c' := rows[0], ApplyRow(c, rows[0], rendered, noise);
      assert forall r :: r in rows <==> r == row || r in rows[1..];
      LiveAfterWrites(c', rows[1..], rendered, noise, id);
    }
  }

  /** An object that no row writes is gone after the first delete, or stays as it was. */
  lemma {:induction false} GoneAfter(c: Cluster, rows: seq<Row>, rendered: seq<Manifest>, noise: ObjectId -> Noise,
                                     id: ObjectId)
    requires forall r | r in rows && IdOf(c, r.key) == id :: !IsWrite(r)
    ensures id in ApplyRows(c, rows, rendered, noise).live <==>
            id in c.live && forall r | r in rows && IdOf(c, r.key) == id :: r.would == Nothing
    decreases |rows|
  {
    if rows != [] {
      var row, c' := rows[0], ApplyRow(c, rows[0], rendered, noise);
      assert forall r :: r in rows <==> r == row || r in rows[1..];
      GoneAfter(c', rows[1..], rendered, noise, id);
    }
  }

  // ---------- the rows of a diff ----------

  lemma {:induction false} DesiredAt(rendered: seq<Manifest>, key: ResourceKey)
    ensures key in RenderedKeys(rendered) <==> Desired(rendered, key).Some?
    ensures Desired(rendered, key).Some? ==> Manifest(key, Desired(rendered, key).value) in rendered
  {
    if rendered != [] {
      DesiredAt(rendered[1..], key);
      assert forall m :: m in rendered <==> m == rendered[0] || m in rendered[1..];
    }
  }

  lemma {:induction false} ExtraRowsShape(c: Cluster, keys: set<ResourceKey>, inventory: seq<ResourceKey>)
    ensures forall r | r in ExtraRows(c, keys, inventory) ::
              r.key in inventory && r.key !in keys && r.would == Delete && !GetLive(c, r.key).NotFound?
    ensures forall k | k in inventory && k !in keys && !GetLive(c, k).NotFound? ::
              exists r :: r in ExtraRows(c, keys, inventory) && r.key == k
    decreases |inventory|
  {
    if inventory != [] {
      var n := |inventory| - 1;
      var front := ExtraRows(c, keys, inventory[..n]);
      ExtraRowsShape(c, keys, inventory[..n]);
      assert inventory == inventory[..n] + [inventory[n]];
      forall k | k in inventory && k !in keys && !GetLive(c, k).NotFound?
        ensures exists r :: r in ExtraRows(c, keys, inventory) && r.key == k
      {
        if k in inventory[..n] {
          var r :| r in front && r.key == k;
          assert r in ExtraRows(c, keys, inventory);
        } else {
          assert ExtraRow(c, k)[0] in ExtraRows(c, keys, inventory);
        }
      }
    }
  }

  lemma RenderedRowsShape(c: Cluster, tools: Tools, rendered: seq<Manifest>)
    ensures forall r | r in RenderedRows(c, tools, rendered) ::
              exists m :: m in rendered && r == Classify(c, tools, m)
    ensures forall m | m in rendered :: Classify(c, tools, m) in RenderedRows(c, tools, rendered)
  {
    var rows := RenderedRows(c, tools, rendered);
    forall m | m in rendered ensures Classify(c, tools, m) in rows {
      var i :| 0 <= i < |rendered| && rendered[i] == m;
      assert rows[i] == Classify(c, tools, m);
    }
    forall r | r in rows ensures exists m :: m in rendered && r == Classify(c, tools, m) {
      var i :| 0 <= i < |rows| && rows[i] == r;
      assert rendered[i] in rendered;
    }
  }

  lemma ClassifyShape(c: Cluster, tools: Tools, m: Manifest)
    ensures Classify(c, tools, m).key == m.key && Classify(c, tools, m).would != Delete
    ensures m.key in c.broken ==> Classify(c, tools, m).would == Nothing
    ensures m.key !in c.broken && IdOf(c, m.key) !in c.live ==> Classify(c, tools, m).would == Create
  {
  }

  /** A row that writes is the row of a rendered object that can be fetched; a row that deletes is an extra one. */
  lemma RowOrigin(c: Cluster, tools: Tools, rendered: seq<Manifest>, inventory: seq<ResourceKey>, r: Row)
    requires r in DiffRows(c, tools, rendered, inventory)
    ensures if r.would == Delete then r.key in inventory && r.key !in RenderedKeys(rendered)
            else r.key in RenderedKeys(rendered)
    ensures IsWrite(r) ==> r.key !in c.broken
    ensures r.would == Delete ==> !GetLive(c, r.key).NotFound?
  {
    RenderedRowsShape(c, tools, rendered);
    ExtraRowsShape(c, RenderedKeys(rendered), inventory);
    if r in RenderedRows(c, tools, rendered) {
      var m :| m in rendered && r == Classify(c, tools, m);
      ClassifyShape(c, tools, m);
    }
  }

  lemma SameRows(xs: seq<Row>, ys: seq<Row>)
    requires multiset(xs) == multiset(ys)
    ensures forall r :: r in xs <==> r in ys
  {
    assert forall r :: r in xs <==> r in multiset(xs);
    assert forall r :: r in ys <==> r in multiset(ys);
  }

  // ---------- convergence ----------

  /** The row of a rendered object with which there is nothing left to do, apart from a failing fetch. */
  function SettledRow(c: Cluster, m: Manifest): Row {
    if m.key in c.broken then Row(m.key, RenderError, Nothing, c.broken[m.key], [])
    else Row(m.key, InSync, Nothing, "", [])
  }

  function SettledExtras(c: Cluster, keys: set<ResourceKey>, inventory: seq<ResourceKey>): seq<Row> {
    if inventory == [] then []
    else
      var n := |inventory| - 1;
      var k := inventory[n];
      SettledExtras(c, keys, inventory[..n]) +
      if k !in keys && k in c.broken then [Row(k, ExtraOnCluster, Delete, c.broken[k], [])] else []
  }

  /** The rows when nothing is left to do: only failing fetches show as anything but in sync. */
  function SettledRows(c: Cluster, rendered: seq<Manifest>, inventory: seq<ResourceKey>): seq<Row> {
    seq(|rendered|, i requires 0 <= i < |rendered| => SettledRow(c, rendered[i])) +
    SettledExtras(c, RenderedKeys(rendered), inventory)
  }

  /** What the comparison sees of an object. */
  function TextOf(tools: Tools, j: Json): Result<string> {
    tools.marshal(Cleaned(j))
  }

  /** Every object involved can be written as YAML, as it is read under its rendered keys. */
  ghost predicate Marshals(c: Cluster, tools: Tools, rendered: seq<Manifest>) {
    && (forall m | m in rendered :: TextOf(tools, m.body).Ok?)
    && (forall m | m in rendered && IdOf(c, m.key) in c.live ::
          TextOf(tools, Read(c.server, c.live[IdOf(c, m.key)], m.key)).Ok?)
  }

  /** The live object is there and reads as the rendered one under the rendered one's key. */
  predicate ReadsAs(server: Server, tools: Tools, live: Option<Stored>, m: Manifest) {
    live.Some? && TextOf(tools, Read(server, live.value, m.key)) == TextOf(tools, m.body)
  }

  /** What the rows write last to each rendered object that can be fetched reads as it should. */
  ghost predicate LastWritesRead(c: Cluster, tools: Tools, rendered: seq<Manifest>, noise: ObjectId -> Noise,
                                 rows: seq<Row>)
  {
    forall m | m in rendered && m.key !in c.broken :: LastWriteReads(c, tools, rendered, noise, rows, m)
  }

  predicate LastWriteReads(c: Cluster, tools: Tools, rendered: seq<Manifest>, noise: ObjectId -> Noise, rows: seq<Row>,
                           m: Manifest)
  {
    var id := IdOf(c, m.key);
    match LastWrite(c.server, rows, id)
    case None => true
    case Some(k) => ReadsAs(c.server, tools, Written(rendered, k, noise(id)), m)
  }

  /** No inventory entry names a rendered object by a key that is not rendered. */
  ghost predicate NoOtherKey(c: Cluster, rendered: seq<Manifest>, inventory: seq<ResourceKey>) {
    forall m, k | m in rendered && k in inventory && m.key !in c.broken && k !in RenderedKeys(rendered) ::
      IdOf(c, k) != IdOf(c, m.key)
  }

  /** An object that can be fetched is in sync exactly when it reads as it should; else its row does something. */
  lemma ClassifyReads(c: Cluster, tools: Tools, m: Manifest)
    requires m.key !in c.broken && TextOf(tools, m.body).Ok?
    ensures ReadsAs(c.server, tools, LiveAt(c, IdOf(c, m.key)), m) <==>
            Classify(c, tools, m) == Row(m.key, InSync, Nothing, "", [])
    ensures Classify(c, tools, m).status == InSync ==> Classify(c, tools, m) == Row(m.key, InSync, Nothing, "", [])
    ensures (IdOf(c, m.key) in c.live ==> TextOf(tools, Read(c.server, c.live[IdOf(c, m.key)], m.key)).Ok?) ==>
              ReadsAs(c.server, tools, LiveAt(c, IdOf(c, m.key)), m) || IsWrite(Classify(c, tools, m))
  {
  }

  /** No row deletes a rendered object. */
  lemma NoDeletes(c: Cluster, tools: Tools, rendered: seq<Manifest>, inventory: seq<ResourceKey>, rows: seq<Row>,
                  m: Manifest)
    requires NoOtherKey(c, rendered, inventory) && m in rendered && m.key !in c.broken
    requires multiset(rows) == multiset(DiffRows(c, tools, rendered, inventory))
    ensures forall r | r in rows && IdOf(c, r.key) == IdOf(c, m.key) :: r.would != Delete
  {
    SameRows(rows, DiffRows(c, tools, rendered, inventory));
    forall r | r in rows && IdOf(c, r.key) == IdOf(c, m.key) ensures r.would != Delete {
      RowOrigin(c, tools, rendered, inventory, r);
    }
  }

  lemma OwnRow(c: Cluster, tools: Tools, rendered: seq<Manifest>, inventory: seq<ResourceKey>, rows: seq<Row>,
               m: Manifest)
    requires m in rendered && multiset(rows) == multiset(DiffRows(c, tools, rendered, inventory))
    ensures Classify(c, tools, m) in rows
  {
    SameRows(rows, DiffRows(c, tools, rendered, inventory));
    RenderedRowsShape(c, tools, rendered);
  }

  /** A rendered object that no row deletes is in sync afterwards if and only if its last write reads as it should. */
  lemma RenderedConverges(c: Cluster, tools: Tools, rendered: seq<Manifest>, inventory: seq<ResourceKey>,
                          noise: ObjectId -> Noise, rows: seq<Row>, m: Manifest)
    requires Marshals(c, tools, rendered) && m in rendered && NoOtherKey(c, rendered, inventory)
    requires multiset(rows) == multiset(DiffRows(c, tools, rendered, inventory))
    ensures Classify(ApplyRows(c, rows, rendered, noise), tools, m) == SettledRow(c, m) <==>
            (m.key !in c.broken ==> LastWriteReads(c, tools, rendered, noise, rows, m))
  {
    var id, c' := IdOf(c, m.key), ApplyRows(c, rows, rendered, noise);
    ServerStays(c, rows, rendered, noise);
    if m.key !in c.broken {
      NoDeletes(c, tools, rendered, inventory, rows, m);
      LiveAfterWrites(c, rows, rendered, noise, id);
      OwnRow(c, tools, rendered, inventory, rows, m);
      LastWriteIs(c.server, rows, id);
      ClassifyShape(c, tools, m);
      ClassifyReads(c, tools, m);
      ClassifyReads(c', tools, m);
    }
  }

  /** An inventory entry that names no rendered object is gone after the rows, in whatever order. */
  lemma ExtraGone(c: Cluster, tools: Tools, rendered: seq<Manifest>, inventory: seq<ResourceKey>,
                  noise: ObjectId -> Noise, rows: seq<Row>, k: ResourceKey)
    requires k in inventory && k !in RenderedKeys(rendered)
    requires forall m | m in rendered && m.key !in c.broken :: IdOf(c, m.key) != IdOf(c, k)
    requires multiset(rows) == multiset(DiffRows(c, tools, rendered, inventory))
    ensures IdOf(c, k) !in ApplyRows(c, rows, rendered, noise).live
  {
    var keys := RenderedKeys(rendered);
    var all := DiffRows(c, tools, rendered, inventory);
    SameRows(rows, all);
    forall r | r in rows && IdOf(c, r.key) == IdOf(c, k) ensures !IsWrite(r) {
      RowOrigin(c, tools, rendered, inventory, r);
    }
    GoneAfter(c, rows, rendered, noise, IdOf(c, k));
    if IdOf(c, k) in c.live {
      ExtraRowsShape(c, keys, inventory);
      var r :| r in ExtraRows(c, keys, inventory) && r.key == k;
      assert r in all && r in rows;
    }
  }

  lemma {:induction false} ExtrasConverge(c: Cluster, c': Cluster, keys: set<ResourceKey>, inventory: seq<ResourceKey>)
    requires c'.broken == c.broken && c'.server == c.server
    requires forall k | k in inventory && k !in keys && k !in c.broken :: IdOf(c, k) !in c'.live
    ensures ExtraRows(c', keys, inventory) == SettledExtras(c, keys, inventory)
    decreases |inventory|
  {
    if inventory != [] {
      var n := |inventory| - 1;
      assert inventory == inventory[..n] + [inventory[n]];
      ExtrasConverge(c, c', keys, inventory[..n]);
    }
  }

  lemma AllSettled(c: Cluster, c': Cluster, tools: Tools, rendered: seq<Manifest>, inventory: seq<ResourceKey>)
    requires c'.broken == c.broken && c'.server == c.server
    requires forall m | m in rendered :: Classify(c', tools, m) == SettledRow(c, m)
    requires forall k | k in inventory && k !in RenderedKeys(rendered) && k !in c.broken :: IdOf(c, k) !in c'.live
    ensures DiffRows(c', tools, rendered, inventory) == SettledRows(c, rendered, inventory)
  {
    ExtrasConverge(c, c', RenderedKeys(rendered), inventory);
    assert RenderedRows(c', tools, rendered) ==
           seq(|rendered|, i requires 0 <= i < |rendered| => SettledRow(c, rendered[i]));
  }

  /**
   Convergence.  When what is written last to each rendered object reads as it should, and
   no inventory entry names a rendered object by another key, carrying out every row's
   create, update or delete, in whatever order, with whatever fields of its own the server
   adds, and diffing again leaves nothing to do: one row per rendered object, in sync or
   with the same fetch error as before, and no extra rows but those whose fetch fails.
   */
  lemma DiffConverges(c: Cluster, tools: Tools, rendered: seq<Manifest>, inventory: seq<ResourceKey>,
                      noise: ObjectId -> Noise, rows: seq<Row>)
    requires Marshals(c, tools, rendered)
    requires LastWritesRead(c, tools, rendered, noise, rows) && NoOtherKey(c, rendered, inventory)
    requires multiset(rows) == multiset(DiffRows(c, tools, rendered, inventory))
    ensures DiffRows(ApplyRows(c, rows, rendered, noise), tools, rendered, inventory) ==
            SettledRows(c, rendered, inventory)
  {
    var c' := ApplyRows(c, rows, rendered, noise);
    forall m | m in rendered ensures Classify(c', tools, m) == SettledRow(c, m) {
      RenderedConverges(c, tools, rendered, inventory, noise, rows, m);
    }
    forall k | k in inventory && k !in RenderedKeys(rendered) ensures IdOf(c, k) !in c'.live {
      ExtraGone(c, tools, rendered, inventory, noise, rows, k);
    }
    ServerStays(c, rows, rendered, noise);
    AllSettled(c, c', tools, rendered, inventory);
  }

  // ---------- exactly when ----------

  /** With nothing left to do, rendered objects have their settled rows, and extra rows are of failing fetches. */
  lemma SettledParts(c: Cluster, c': Cluster, tools: Tools, rendered: seq<Manifest>, inventory: seq<ResourceKey>)
    requires c'.broken == c.broken && c'.server == c.server
    requires DiffRows(c', tools, rendered, inventory) == SettledRows(c, rendered, inventory)
    ensures forall m | m in rendered :: Classify(c', tools, m) == SettledRow(c, m)
    ensures forall k | k in inventory && k !in RenderedKeys(rendered) && k !in c.broken :: IdOf(c, k) !in c'.live
  {
    var keys := RenderedKeys(rendered);
    var head := RenderedRows(c', tools, rendered);
    var tail := ExtraRows(c', keys, inventory);
    var settled := SettledRows(c, rendered, inventory);
    assert (head + tail)[..|rendered|] == head && (head + tail)[|rendered|..] == tail;
    assert settled[|rendered|..] == SettledExtras(c, keys, inventory);
    forall m | m in rendered ensures Classify(c', tools, m) == SettledRow(c, m) {
      var i :| 0 <= i < |rendered| && rendered[i] == m;
      assert head[i] == settled[i];
    }
    ExtraRowsShape(c', keys, inventory);
    SettledExtrasShape(c, keys, inventory);
    forall k | k in inventory && k !in keys && k !in c.broken ensures IdOf(c, k) !in c'.live {
      assert GetLive(c', k).NotFound?;
    }
  }

  lemma {:induction false} SettledExtrasShape(c: Cluster, keys: set<ResourceKey>, inventory: seq<ResourceKey>)
    ensures forall r | r in SettledExtras(c, keys, inventory) :: r.key in c.broken
    decreases |inventory|
  {
    if inventory != [] {
      SettledExtrasShape(c, keys, inventory[..|inventory| - 1]);
    }
  }

  /** Two rendered objects with one key that read differently are never both in sync. */
  lemma DuplicatesNeverSettle(c: Cluster, tools: Tools, a: Manifest, b: Manifest)
    requires a.key == b.key && TextOf(tools, a.body) != TextOf(tools, b.body)
    ensures !(Classify(c, tools, a).status == InSync && Classify(c, tools, b).status == InSync)
  {
  }

  /** Rendered objects with one key, which can be fetched, read the same. */
  ghost predicate OneText(c: Cluster, tools: Tools, rendered: seq<Manifest>) {
    forall a, b | a in rendered && b in rendered && a.key == b.key && a.key !in c.broken ::
      TextOf(tools, a.body) == TextOf(tools, b.body)
  }

  /**
   Whatever happened to the cluster in between: when nothing is left to do, rendered objects
   with one key read the same, and no inventory entry whose fetch works names a rendered
   object by another key.
   */
  lemma SettledMeans(c: Cluster, c': Cluster, tools: Tools, rendered: seq<Manifest>, inventory: seq<ResourceKey>)
    requires c'.broken == c.broken && c'.server == c.server
    requires DiffRows(c', tools, rendered, inventory) == SettledRows(c, rendered, inventory)
    ensures OneText(c, tools, rendered)
    ensures forall m, k | m in rendered && k in inventory && m.key !in c.broken && k !in RenderedKeys(rendered)
                          && k !in c.broken ::
              IdOf(c, k) != IdOf(c, m.key)
  {
    SettledParts(c, c', tools, rendered, inventory);
    forall a, b | a in rendered && b in rendered && a.key == b.key && a.key !in c.broken
      ensures TextOf(tools, a.body) == TextOf(tools, b.body)
    {
      if TextOf(tools, a.body) != TextOf(tools, b.body) {
        DuplicatesNeverSettle(c', tools, a, b);
      }
    }
    forall m | m in rendered && m.key !in c.broken ensures IdOf(c, m.key) in c'.live {
      assert Classify(c', tools, m).status == InSync;
    }
  }

  /** Deleting last, as a reconcile prunes after it has applied: what has an extra row is gone. */
  lemma PrunedLast(c: Cluster, tools: Tools, rendered: seq<Manifest>, inventory: seq<ResourceKey>,
                   noise: ObjectId -> Noise, k: ResourceKey)
    requires k in inventory && k !in RenderedKeys(rendered) && !GetLive(c, k).NotFound?
    ensures IdOf(c, k) !in ApplyRows(c, DiffRows(c, tools, rendered, inventory), rendered, noise).live
  {
    var keys := RenderedKeys(rendered);
    var applied := ApplyRows(c, RenderedRows(c, tools, rendered), rendered, noise);
    ApplyAppend(c, RenderedRows(c, tools, rendered), ExtraRows(c, keys, inventory), rendered, noise);
    ServerStays(c, RenderedRows(c, tools, rendered), rendered, noise);
    ExtraRowsShape(c, keys, inventory);
    var r :| r in ExtraRows(c, keys, inventory) && r.key == k;
    GoneAfter(applied, ExtraRows(c, keys, inventory), rendered, noise, IdOf(c, k));
  }

  /**
   What becomes of the object of an inventory entry that is not rendered, when every fetch
   works and pruning comes last: it is gone, unless it was missing and is rendered under
   another key, which creates it.
   */
  lemma ExtraGoneExactly(c: Cluster, tools: Tools, rendered: seq<Manifest>, inventory: seq<ResourceKey>,
                         noise: ObjectId -> Noise, k: ResourceKey)
    requires c.broken == map[] && k in inventory && k !in RenderedKeys(rendered)
    ensures IdOf(c, k) in ApplyRows(c, DiffRows(c, tools, rendered, inventory), rendered, noise).live <==>
            IdOf(c, k) !in c.live && exists m :: m in rendered && IdOf(c, m.key) == IdOf(c, k)
  {
    var rows, id := DiffRows(c, tools, rendered, inventory), IdOf(c, k);
    if id in c.live {
      PrunedLast(c, tools, rendered, inventory, noise, k);
    } else {
      forall r | r in rows && IdOf(c, r.key) == id ensures r.would != Delete {
        RowOrigin(c, tools, rendered, inventory, r);
      }
      LiveAfterWrites(c, rows, rendered, noise, id);
      LastWriteIs(c.server, rows, id);
      if m :| m in rendered && IdOf(c, m.key) == id {
        OwnRow(c, tools, rendered, inventory, rows, m);
        ClassifyShape(c, tools, m);
      }
      if LastWrite(c.server, rows, id).Some? {
        var r :| r in rows && r.key == LastWrite(c.server, rows, id).value && IsWrite(r);
        RowOrigin(c, tools, rendered, inventory, r);
        DesiredAt(rendered, r.key);
      }
    }
  }

  /** Where no entry names a rendered object by another key, settled means that the last writes read right. */
  lemma SettledLastWrites(c: Cluster, tools: Tools, rendered: seq<Manifest>, inventory: seq<ResourceKey>,
                          noise: ObjectId -> Noise, rows: seq<Row>)
    requires Marshals(c, tools, rendered) && NoOtherKey(c, rendered, inventory)
    requires multiset(rows) == multiset(DiffRows(c, tools, rendered, inventory))
    requires DiffRows(ApplyRows(c, rows, rendered, noise), tools, rendered, inventory) ==
             SettledRows(c, rendered, inventory)
    ensures LastWritesRead(c, tools, rendered, noise, rows)
  {
    ServerStays(c, rows, rendered, noise);
    SettledParts(c, ApplyRows(c, rows, rendered, noise), tools, rendered, inventory);
    forall m | m in rendered && m.key !in c.broken ensures LastWriteReads(c, tools, rendered, noise, rows, m) {
      RenderedConverges(c, tools, rendered, inventory, noise, rows, m);
    }
  }

  lemma PrunedIsNotSettled(c: Cluster, tools: Tools, rendered: seq<Manifest>, inventory: seq<ResourceKey>,
                           noise: ObjectId -> Noise)
    requires var c' := ApplyRows(c, DiffRows(c, tools, rendered, inventory), rendered, noise);
             DiffRows(c', tools, rendered, inventory) == SettledRows(c, rendered, inventory)
    ensures NoOtherKey(c, rendered, inventory)
  {
    var rows := DiffRows(c, tools, rendered, inventory);
    var c' := ApplyRows(c, rows, rendered, noise);
    ServerStays(c, rows, rendered, noise);
    SettledMeans(c, c', tools, rendered, inventory);
    SettledParts(c, c', tools, rendered, inventory);
    forall m, k | m in rendered && k in inventory && m.key !in c.broken && k !in RenderedKeys(rendered)
      ensures IdOf(c, k) != IdOf(c, m.key)
    {
      if k in c.broken {
        PrunedLast(c, tools, rendered, inventory, noise, k);
        assert Classify(c', tools, m).status == InSync;
      }
    }
  }

  /**
   The exact condition, applying first and pruning afterwards: nothing is left to do if and
   only if what is written last to each rendered object reads as it should, and no inventory
   entry names a rendered object by another key.
   */
  lemma DiffConvergesExactly(c: Cluster, tools: Tools, rendered: seq<Manifest>, inventory: seq<ResourceKey>,
                             noise: ObjectId -> Noise)
    requires Marshals(c, tools, rendered)
    ensures var rows := DiffRows(c, tools, rendered, inventory);
            DiffRows(ApplyRows(c, rows, rendered, noise), tools, rendered, inventory) ==
            SettledRows(c, rendered, inventory) <==>
            LastWritesRead(c, tools, rendered, noise, rows) && NoOtherKey(c, rendered, inventory)
  {
    var rows := DiffRows(c, tools, rendered, inventory);
    var c' := ApplyRows(c, rows, rendered, noise);
    if LastWritesRead(c, tools, rendered, noise, rows) && NoOtherKey(c, rendered, inventory) {
      DiffConverges(c, tools, rendered, inventory, noise, rows);
    }
    if DiffRows(c', tools, rendered, inventory) == SettledRows(c, rendered, inventory) {
      PrunedIsNotSettled(c, tools, rendered, inventory, noise);
      SettledLastWrites(c, tools, rendered, inventory, noise, rows);
    }
  }

  /** The rows of a second diff that finds nothing to do. */
  function AllInSync(rendered: seq<Manifest>): seq<Row> {
    seq(|rendered|, i requires 0 <= i < |rendered| => Row(rendered[i].key, InSync, Nothing, "", []))
  }

  /**
   When every fetch works, in whatever order: the second diff is one in-sync row per rendered
   object and nothing else if and only if what is written last to each rendered object reads
   as it should and no inventory entry names a rendered object by another key.
   */
  lemma DiffConvergesFully(c: Cluster, tools: Tools, rendered: seq<Manifest>, inventory: seq<ResourceKey>,
                           noise: ObjectId -> Noise, rows: seq<Row>)
    requires Marshals(c, tools, rendered) && c.broken == map[]
    requires multiset(rows) == multiset(DiffRows(c, tools, rendered, inventory))
    ensures DiffRows(ApplyRows(c, rows, rendered, noise), tools, rendered, inventory) == AllInSync(rendered) <==>
            LastWritesRead(c, tools, rendered, noise, rows) && NoOtherKey(c, rendered, inventory)
  {
    NothingBroken(c, rendered, inventory);
    ServerStays(c, rows, rendered, noise);
    var c' := ApplyRows(c, rows, rendered, noise);
    if LastWritesRead(c, tools, rendered, noise, rows) && NoOtherKey(c, rendered, inventory) {
      DiffConverges(c, tools, rendered, inventory, noise, rows);
    }
    if DiffRows(c', tools, rendered, inventory) == SettledRows(c, rendered, inventory) {
      SettledMeans(c, c', tools, rendered, inventory);
      SettledLastWrites(c, tools, rendered, inventory, noise, rows);
    }
  }

  lemma NothingBroken(c: Cluster, rendered: seq<Manifest>, inventory: seq<ResourceKey>)
    requires c.broken == map[]
    ensures SettledRows(c, rendered, inventory) == AllInSync(rendered)
  {
    NoSettledExtras(c, RenderedKeys(rendered), inventory);
  }

  lemma {:induction false} NoSettledExtras(c: Cluster, keys: set<ResourceKey>, inventory: seq<ResourceKey>)
    requires c.broken == map[]
    ensures SettledExtras(c, keys, inventory) == []
    decreases |inventory|
  {
    if inventory != [] {
      NoSettledExtras(c, keys, inventory[..|inventory| - 1]);
    }
  }

  // ---------- conditions on the rendered objects alone ----------

  /** Each rendered object, when written, reads as it should under every rendered key that names it. */
  ghost predicate Compatible(c: Cluster, tools: Tools, rendered: seq<Manifest>, noise: ObjectId -> Noise) {
    forall a, b | a in rendered && b in rendered && IdOf(c, a.key) == IdOf(c, b.key) && a.key !in c.broken
                  && b.key !in c.broken ::
      ReadsAs(c.server, tools, Some(Stored(b.key, Served(b.body, noise(IdOf(c, b.key))))), a)
  }

  /** Then the order of the rows makes no difference. */
  lemma CompatibleWrites(c: Cluster, tools: Tools, rendered: seq<Manifest>, inventory: seq<ResourceKey>,
                         noise: ObjectId -> Noise, rows: seq<Row>)
    requires Compatible(c, tools, rendered, noise)
    requires multiset(rows) == multiset(DiffRows(c, tools, rendered, inventory))
    ensures LastWritesRead(c, tools, rendered, noise, rows)
  {
    SameRows(rows, DiffRows(c, tools, rendered, inventory));
    forall m | m in rendered && m.key !in c.broken ensures LastWriteReads(c, tools, rendered, noise, rows, m) {
      var id := IdOf(c, m.key);
      LastWriteIs(c.server, rows, id);
      if LastWrite(c.server, rows, id).Some? {
        var r :| r in rows && r.key == LastWrite(c.server, rows, id).value && IsWrite(r);
        RowOrigin(c, tools, rendered, inventory, r);
        DesiredAt(rendered, r.key);
        var b := Manifest(r.key, Desired(rendered, r.key).value);
        assert b in rendered && IdOf(c, b.key) == id;
      }
    }
  }

  ghost predicate WithMetadata(c: Cluster, rendered: seq<Manifest>, noise: ObjectId -> Noise) {
    forall m | m in rendered :: HasMetadata(m.body) && IsNoise(noise(IdOf(c, m.key)))
  }

  /** No object is rendered under two keys. */
  ghost predicate OneKey(c: Cluster, rendered: seq<Manifest>) {
    forall a, b | a in rendered && b in rendered && IdOf(c, a.key) == IdOf(c, b.key) :: a.key == b.key
  }

  lemma OneTextIsCompatible(c: Cluster, tools: Tools, rendered: seq<Manifest>, noise: ObjectId -> Noise)
    requires WithMetadata(c, rendered, noise) && OneKey(c, rendered) && OneText(c, tools, rendered)
    ensures Compatible(c, tools, rendered, noise)
  {
    forall a, b | a in rendered && b in rendered && IdOf(c, a.key) == IdOf(c, b.key) && a.key !in c.broken
                  && b.key !in c.broken
      ensures ReadsAs(c.server, tools, Some(Stored(b.key, Served(b.body, noise(IdOf(c, b.key))))), a)
    {
      assert a.key == b.key;
      assert HasMetadata(b.body) && IsNoise(noise(IdOf(c, b.key)));
      NoiseIsInvisible(b.body, noise(IdOf(c, b.key)));
    }
  }

  /**
   The usual case: metadata maps are present and no object is rendered under two keys.  When
   every fetch works, in whatever order, the second diff is all in sync if and only if
   rendered objects with one key read the same and no inventory entry names a rendered
   object by another key.
   */
  lemma OneKeyConverges(c: Cluster, tools: Tools, rendered: seq<Manifest>, inventory: seq<ResourceKey>,
                        noise: ObjectId -> Noise, rows: seq<Row>)
    requires Marshals(c, tools, rendered) && c.broken == map[]
    requires WithMetadata(c, rendered, noise) && OneKey(c, rendered)
    requires multiset(rows) == multiset(DiffRows(c, tools, rendered, inventory))
    ensures DiffRows(ApplyRows(c, rows, rendered, noise), tools, rendered, inventory) == AllInSync(rendered) <==>
            OneText(c, tools, rendered) && NoOtherKey(c, rendered, inventory)
  {
    DiffConvergesFully(c, tools, rendered, inventory, noise, rows);
    if OneText(c, tools, rendered) {
      OneTextIsCompatible(c, tools, rendered, noise);
      CompatibleWrites(c, tools, rendered, inventory, noise, rows);
    }
    if DiffRows(ApplyRows(c, rows, rendered, noise), tools, rendered, inventory) == AllInSync(rendered) {
      NothingBroken(c, rendered, inventory);
      ServerStays(c, rows, rendered, noise);
      SettledMeans(c, ApplyRows(c, rows, rendered, noise), tools, rendered, inventory);
    }
  }

  // ---------- an object under two keys ----------

  /**
   A manifest that moved to another version: the object is in sync, yet the old version in
   the inventory makes an extra row, and pruning it takes the rendered object away.
   */
  lemma VersionMoveNeverSettles(server: Server, tools: Tools, body: Json, noise: ObjectId -> Noise)
    requires TextOf(tools, body).Ok?
    requires var key := ResourceKey("apps", "v1", "Deployment", "web", "shop");
             server.idOf(key) == server.idOf(key.(version := "v1beta1"))
    ensures var key := ResourceKey("apps", "v1", "Deployment", "web", "shop");
            var former := key.(version := "v1beta1");
            var rendered, inventory := [Manifest(key, body)], [former];
            var c := Cluster(server, map[server.idOf(key) := Stored(key, body)], map[]);
            var rows := DiffRows(c, tools, rendered, inventory);
            && rows == [Row(key, InSync, Nothing, "", []), Row(former, ExtraOnCluster, Delete, "", [])]
            && DiffRows(ApplyRows(c, rows, rendered, noise), tools, rendered, inventory) ==
               [Row(key, MissingOnCluster, Create, "", [])]
  {
    var key := ResourceKey("apps", "v1", "Deployment", "web", "shop");
    var former := key.(version := "v1beta1");
    assert |former.version| != |key.version|;
    var c := Cluster(server, map[server.idOf(key) := Stored(key, body)], map[]);
    OtherKeyPruned(c, tools, key, former, body, noise);
  }

  /** The same for any two keys of one object, such as one with and one without a stamped namespace. */
  lemma OtherKeyPruned(c: Cluster, tools: Tools, key: ResourceKey, former: ResourceKey, body: Json,
                       noise: ObjectId -> Noise)
    requires key != former && IdOf(c, key) == IdOf(c, former) && TextOf(tools, body).Ok?
    requires c.live == map[IdOf(c, key) := Stored(key, body)] && c.broken == map[]
    ensures var rendered, inventory := [Manifest(key, body)], [former];
            var rows := DiffRows(c, tools, rendered, inventory);
            && rows == [Row(key, InSync, Nothing, "", []), Row(former, ExtraOnCluster, Delete, "", [])]
            && DiffRows(ApplyRows(c, rows, rendered, noise), tools, rendered, inventory) ==
               [Row(key, MissingOnCluster, Create, "", [])]
  {
    var rendered, inventory := [Manifest(key, body)], [former];
    var keys := RenderedKeys(rendered);
    assert keys == {key} by { assert rendered[0] in rendered; }
    var stays, goes := Row(key, InSync, Nothing, "", []), Row(former, ExtraOnCluster, Delete, "", []);
    assert inventory[..0] == [];
    assert ExtraRows(c, keys, inventory) == [goes];
    assert RenderedRows(c, tools, rendered) == [stays];
    var rows := DiffRows(c, tools, rendered, inventory);
    assert rows == [stays, goes];
    PrunedLast(c, tools, rendered, inventory, noise, former);
    ServerStays(c, rows, rendered, noise);
    var c' := ApplyRows(c, rows, rendered, noise);
    assert ExtraRows(c', keys, inventory) == [];
    assert RenderedRows(c', tools, rendered) == [Row(key, MissingOnCluster, Create, "", [])];
  }

  /**
   An object that is rendered under two keys: if each reads as it should when the other was
   written, the second diff is in sync under both, whatever the order.
   */
  lemma TwoKeysSettle(c: Cluster, tools: Tools, a: Manifest, b: Manifest, noise: ObjectId -> Noise, rows: seq<Row>)
    requires c.broken == map[] && Marshals(c, tools, [a, b]) && WithMetadata(c, [a, b], noise)
    requires a.key != b.key && IdOf(c, a.key) == IdOf(c, b.key)
    requires var n := noise(IdOf(c, a.key));
             && TextOf(tools, c.server.convert(Served(a.body, n), a.key, b.key)) == TextOf(tools, b.body)
             && TextOf(tools, c.server.convert(Served(b.body, n), b.key, a.key)) == TextOf(tools, a.body)
    requires multiset(rows) == multiset(DiffRows(c, tools, [a, b], []))
    ensures DiffRows(ApplyRows(c, rows, [a, b], noise), tools, [a, b], []) == AllInSync([a, b])
  {
    TwoCompatible(c, tools, a, b, noise);
    CompatibleWrites(c, tools, [a, b], [], noise, rows);
    DiffConvergesFully(c, tools, [a, b], [], noise, rows);
  }

  lemma TwoCompatible(c: Cluster, tools: Tools, a: Manifest, b: Manifest, noise: ObjectId -> Noise)
    requires WithMetadata(c, [a, b], noise) && a.key != b.key && IdOf(c, a.key) == IdOf(c, b.key)
    requires var n := noise(IdOf(c, a.key));
             && TextOf(tools, c.server.convert(Served(a.body, n), a.key, b.key)) == TextOf(tools, b.body)
             && TextOf(tools, c.server.convert(Served(b.body, n), b.key, a.key)) == TextOf(tools, a.body)
    ensures Compatible(c, tools, [a, b], noise)
  {
    var n := noise(IdOf(c, a.key));
    assert [a, b][0] in [a, b] && [a, b][1] in [a, b];
    NoiseIsInvisible(a.body, n);
    NoiseIsInvisible(b.body, n);
    assert forall x | x in [a, b] :: x == a || x == b;
  }
}
