/** Data frames, staged table handles over memory and Parquet, and the table they both refine. */
module Tables {
  import opened Text

  // ----- frames -----

  datatype Cell = NullCell | StringCell(text: string) | NumberCell(bits: string)

  datatype Column = Column(name: string, dtype: string)

  type Row = seq<Cell>

  datatype Frame = Frame(columns: seq<Column>, rows: seq<Row>)

  const EMPTY := Frame([], [])

  /** Columns have distinct names, rows are as wide as the frame, and a frame without columns has no rows. */
  ghost predicate WellFormed(f: Frame) {
    && (forall i, j :: 0 <= i < j < |f.columns| ==> f.columns[i].name != f.columns[j].name)
    && (forall k :: 0 <= k < |f.rows| ==> |f.rows[k]| == |f.columns|)
    && (f.columns == [] ==> f.rows == [])
  }

  function Names(columns: seq<Column>): set<string> {
    set k | 0 <= k < |columns| :: columns[k].name
  }

  /** The position of a column, or the width when there is none. */
  function Position(columns: seq<Column>, name: string): (k: nat)
    ensures k <= |columns|
    ensures k < |columns| ==> columns[k].name == name
    ensures name in Names(columns) ==> k < |columns|
  {
    if columns == [] then 0 else if columns[0].name == name then 0
    else
      assert name in Names(columns) ==> name in Names(columns[1..]) by {
        if name in Names(columns) {
          var k :| 0 <= k < |columns| && columns[k].name == name;
          assert columns[1..][k - 1].name == name;
        }
      }
      1 + Position(columns[1..], name)
  }

  /** `pending.select(names)`: the columns of `f` in the order of `order`. */
  function SelectColumns(f: Frame, order: seq<Column>): (columns: seq<Column>)
    requires Names(order) == Names(f.columns)
    ensures |columns| == |order|
  {
    seq(|order|, i requires 0 <= i < |order| =>
      assert order[i].name in Names(order); f.columns[Position(f.columns, order[i].name)])
  }

  function SelectRow(f: Frame, order: seq<Column>, row: Row): (r: Row)
    requires Names(order) == Names(f.columns) && |row| == |f.columns|
    ensures |r| == |order|
  {
    seq(|order|, i requires 0 <= i < |order| =>
      assert order[i].name in Names(order); row[Position(f.columns, order[i].name)])
  }

  function SelectRows(f: Frame, order: seq<Column>, rows: seq<Row>): (r: seq<Row>)
    requires Names(order) == Names(f.columns) && forall k :: 0 <= k < |rows| ==> |rows[k]| == |f.columns|
    ensures |r| == |rows| && forall k :: 0 <= k < |rows| ==> r[k] == SelectRow(f, order, rows[k])
  {
    if rows == [] then [] else SelectRows(f, order, rows[..|rows| - 1]) + [SelectRow(f, order, rows[|rows| - 1])]
  }

  /** `vstack_mut` of the columns selected by name. */
  function Stacked(existing: Frame, pending: Frame): Frame
    requires WellFormed(pending) && Names(existing.columns) == Names(pending.columns)
  {
    Frame(existing.columns, existing.rows + SelectRows(pending, existing.columns, pending.rows))
  }

  /** `append_dataframe`: an empty side gives the other, and otherwise the columns must agree by name and type. */
  function AppendDataframe(existing: Frame, pending: Frame): Result<Frame>
    requires WellFormed(pending)
  {
    if existing.rows == [] then Ok(pending)
    else if pending.rows == [] then Ok(existing)
    else if Names(existing.columns) != Names(pending.columns) then Err("cannot append dataframe")
    else if SelectColumns(pending, existing.columns) != existing.columns then Err("column types differ")
    else Ok(Stacked(existing, pending))
  }

  /** `append_optional_dataframe`. */
  function AppendOptional(existing: Option<Frame>, pending: Frame): Result<Frame>
    requires WellFormed(pending)
  {
    match existing case None => Ok(pending) case Some(f) => AppendDataframe(f, pending)
  }

  // ----- rows by column name -----

  type NamedRow = map<string, Cell>

  ghost function Named(columns: seq<Column>, row: Row): NamedRow
    requires |row| == |columns|
  {
    map name | name in Names(columns) :: row[Position(columns, name)]
  }

  ghost function NamedRows(f: Frame): (r: seq<NamedRow>)
    requires WellFormed(f)
    ensures |r| == |f.rows|
  {
    seq(|f.rows|, k requires 0 <= k < |f.rows| => Named(f.columns, f.rows[k]))
  }

  /** Reordering columns does not change what a row says. */
  lemma SelectKeepsRow(existing: Frame, pending: Frame, row: Row)
    requires WellFormed(existing) && WellFormed(pending) && Names(existing.columns) == Names(pending.columns)
    requires |row| == |pending.columns|
    ensures Named(existing.columns, SelectRow(pending, existing.columns, row)) == Named(pending.columns, row)
  {
    forall name | name in Names(existing.columns)
      ensures Named(existing.columns, SelectRow(pending, existing.columns, row))[name]
        == Named(pending.columns, row)[name]
    {
      var p := Position(existing.columns, name);
      assert existing.columns[p].name == name;
    }
  }

  lemma StackedWellFormed(existing: Frame, pending: Frame)
    requires WellFormed(existing) && WellFormed(pending) && Names(existing.columns) == Names(pending.columns)
    requires existing.rows != []
    ensures WellFormed(Stacked(existing, pending))
  {
  }

  lemma StackedRow(existing: Frame, pending: Frame, k: nat)
    requires WellFormed(existing) && WellFormed(pending) && Names(existing.columns) == Names(pending.columns)
    requires WellFormed(Stacked(existing, pending)) && k < |existing.rows| + |pending.rows|
    ensures Named(existing.columns, Stacked(existing, pending).rows[k])
      == if k < |existing.rows| then Named(existing.columns, existing.rows[k])
         else Named(pending.columns, pending.rows[k - |existing.rows|])
  {
    if k >= |existing.rows| {
      SelectKeepsRow(existing, pending, pending.rows[k - |existing.rows|]);
    }
  }

  /** Appending concatenates the rows, whatever the column orders, and keeps frames well formed. */
  lemma AppendConcatenates(existing: Frame, pending: Frame)
    requires WellFormed(existing) && WellFormed(pending) && AppendDataframe(existing, pending).Ok?
    ensures WellFormed(AppendDataframe(existing, pending).value)
    ensures NamedRows(AppendDataframe(existing, pending).value) == NamedRows(existing) + NamedRows(pending)
  {
    if existing.rows != [] && pending.rows != [] {
      StackedWellFormed(existing, pending);
      var rows, both := NamedRows(Stacked(existing, pending)), NamedRows(existing) + NamedRows(pending);
      forall k | 0 <= k < |both| ensures rows[k] == both[k] {
        StackedRow(existing, pending, k);
      }
      assert rows == both;
    }
  }

  lemma AppendedWellFormed(existing: Option<Frame>, pending: Frame)
    requires WellFormed(pending) && (existing.Some? ==> WellFormed(existing.value)) &&
      AppendOptional(existing, pending).Ok?
    ensures WellFormed(AppendOptional(existing, pending).value)
  {
    if existing.Some? {
      AppendConcatenates(existing.value, pending);
    }
  }

  /** The rows already there stay where they are, column for column. */
  lemma AppendKeepsPrefix(existing: Frame, pending: Frame)
    requires WellFormed(pending) && AppendDataframe(existing, pending).Ok?
    ensures existing.rows <= AppendDataframe(existing, pending).value.rows
  {
  }

  // ----- one handle -----

  type Committed = map<string, Frame>

  datatype Handle = Handle(
    key: string, existing: Option<Frame>, truncate: bool, pending: Frame, readIndex: nat, closed: bool)

  function OpenHandle(tables: Committed, key: string, truncate: bool): Handle {
    Handle(key, if truncate || key !in tables then None else Some(tables[key]), truncate, EMPTY, 0, false)
  }

  /** A rejected write leaves nothing staged: the staged frame is taken before the check. */
  function WriteTo(h: Handle, f: Frame): (Result<()>, Handle)
    requires WellFormed(f)
  {
    if h.closed then (Err("table is closed"), h)
    else
      match AppendOptional(Some(h.pending), f)
      case Ok(pending) => (Ok(()), h.(pending := pending))
      case Err(message) => (Err(message), h.(pending := EMPTY))
  }

  predicate NothingToCommit(h: Handle) {
    h.pending.rows == [] && (!h.truncate || h.pending.columns == [])
  }

  function CloseOn(tables: Committed, h: Handle): (Result<()>, Committed, Handle)
    requires WellFormed(h.pending)
  {
    if h.closed then (Err("table is closed"), tables, h)
    else if NothingToCommit(h) then (Ok(()), tables, h.(closed := true))
    else
      var existing := if h.truncate || h.key !in tables then None else Some(tables[h.key]);
      match AppendOptional(existing, h.pending)
      case Ok(f) => (Ok(()), tables[h.key := f], h.(closed := true))
      case Err(message) => (Err(message), tables, h)
  }

  function Abort(h: Handle): Handle {
    h.(pending := EMPTY, closed := true)
  }

  function ExistingRows(h: Handle): seq<Row> {
    match h.existing case Some(f) => f.rows case None => []
  }

  function Visible(h: Handle): seq<Row> {
    ExistingRows(h) + h.pending.rows
  }

  /** `next_dataframe_row`. */
  function NextRow(h: Handle): (Option<Row>, Handle) {
    if h.readIndex < |Visible(h)| then (Some(Visible(h)[h.readIndex]), h.(readIndex := h.readIndex + 1)) else (None, h)
  }

  // ----- handles over memory -----

  class MemoryTables {
    var tables: Committed

    constructor ()
      ensures tables == map[]
    {
      tables := map[];
    }
  }

  class MemoryTable {
    const store: MemoryTables
    const key: string
    const existing: Option<Frame>
    const truncate: bool
    var pending: Frame
    var readIndex: nat
    var closed: bool

    ghost function View(): Handle
      reads this
    {
      Handle(key, existing, truncate, pending, readIndex, closed)
    }

    /** `MemoryTableProvider::open`. */
    constructor (store: MemoryTables, key: string, truncate: bool)
      ensures this.store == store && View() == OpenHandle(store.tables, key, truncate)
    {
      this.store, this.key, this.truncate := store, key, truncate;
      this.existing := if truncate || key !in store.tables then None else Some(store.tables[key]);
      pending, readIndex, closed := EMPTY, 0, false;
    }

    method Write(f: Frame) returns (r: Result<()>)
      requires WellFormed(f)
      modifies this`pending
      ensures (r, View()) == WriteTo(old(View()), f)
    {
      if closed {
        return Err("table is closed");
      }
      var taken := pending;
      pending := EMPTY;
      match AppendOptional(Some(taken), f)
      case Ok(appended) =>
        pending := appended;
        r := Ok(());
      case Err(message) =>
        r := Err(message);
    }

    method Close() returns (r: Result<()>)
      requires WellFormed(pending)
      modifies this`closed, store
      ensures (r, store.tables, View()) == CloseOn(old(store.tables), old(View()))
    {
      if closed {
        return Err("table is closed");
      }
      if pending.rows == [] && (!truncate || pending.columns == []) {
        closed := true;
        return Ok(());
      }
      var committed := if truncate || key !in store.tables then None else Some(store.tables[key]);
      match AppendOptional(committed, pending)
      case Ok(f) =>
        store.tables := store.tables[key := f];
        closed := true;
        r := Ok(());
      case Err(message) =>
        r := Err(message);
    }

    method AbortWrites()
      modifies this`pending, this`closed
      ensures View() == Abort(old(View()))
    {
      pending, closed := EMPTY, true;
    }

    method Next() returns (row: Option<Row>)
      modifies this`readIndex
      ensures (row, View()) == NextRow(old(View()))
    {
      var existingRows := if existing.Some? then |existing.value.rows| else 0;
      if existing.Some? && readIndex < existingRows {
        row := Some(existing.value.rows[readIndex]);
      } else {
        var pendingIndex := if readIndex < existingRows then 0 else readIndex - existingRows;
        if pendingIndex >= |pending.rows| {
          return None;
        }
        row := Some(pending.rows[pendingIndex]);
      }
      readIndex := readIndex + 1;
    }
  }

  // ----- handles over Parquet objects -----

  /** The Parquet library: an encoded data frame decodes to itself, other bytes may not decode. */
  datatype Parquet = Parquet(encode: Frame -> string, decode: string -> Option<Frame>)

  ghost predicate Lossless(parquet: Parquet) {
    forall f :: WellFormed(f) ==> parquet.decode(parquet.encode(f)) == Some(f)
  }

  function Object(key: string): string {
    key + ".parquet"
  }

  ghost predicate HoldsAt(parquet: Parquet, objects: map<string, string>, tables: Committed, key: string) {
    && (key in tables <==> Object(key) in objects)
    && (key in tables ==> WellFormed(tables[key]) && parquet.decode(objects[Object(key)]) == Some(tables[key]))
  }

  /** The tables that the objects hold, all of them readable as data frames. */
  ghost predicate Holds(parquet: Parquet, objects: map<string, string>, tables: Committed) {
    forall key :: HoldsAt(parquet, objects, tables, key)
  }

  lemma ObjectInjective(a: string, b: string)
    requires Object(a) == Object(b)
    ensures a == b
  {
    assert a == Object(a)[..|Object(a)| - 8] == Object(b)[..|Object(b)| - 8] == b;
  }

  lemma HoldsAfterSet(parquet: Parquet, objects: map<string, string>, tables: Committed, key: string, f: Frame)
    requires Lossless(parquet) && Holds(parquet, objects, tables) && WellFormed(f)
    ensures Holds(parquet, objects[Object(key) := parquet.encode(f)], tables[key := f])
  {
    var after, more := objects[Object(key) := parquet.encode(f)], tables[key := f];
    forall other ensures HoldsAt(parquet, after, more, other) {
      assert HoldsAt(parquet, objects, tables, other);
      if Object(other) == Object(key) {
        ObjectInjective(other, key);
      }
    }
  }

  class Objects {
    var objects: map<string, string>

    constructor ()
      ensures objects == map[]
    {
      objects := map[];
    }
  }

  class ParquetTable {
    const storage: Objects
    const parquet: Parquet
    const key: string
    const existing: Option<Frame>
    const truncate: bool
    var pending: Frame
    var readIndex: nat
    var closed: bool

    ghost function View(): Handle
      reads this
    {
      Handle(key, existing, truncate, pending, readIndex, closed)
    }

    /** `ParquetTableProvider::open`, for an object that can be read. */
    constructor (storage: Objects, parquet: Parquet, key: string, truncate: bool)
      requires !truncate && Object(key) in storage.objects ==> parquet.decode(storage.objects[Object(key)]).Some?
      ensures this.storage == storage && this.parquet == parquet
      ensures forall tables :: Holds(parquet, storage.objects, tables) ==> View() == OpenHandle(tables, key, truncate)
    {
      this.storage, this.parquet, this.key, this.truncate := storage, parquet, key, truncate;
      this.existing := if truncate || Object(key) !in storage.objects then None
        else parquet.decode(storage.objects[Object(key)]);
      pending, readIndex, closed := EMPTY, 0, false;
      new;
      forall tables | Holds(parquet, storage.objects, tables) ensures View() == OpenHandle(tables, key, truncate) {
        assert HoldsAt(parquet, storage.objects, tables, key);
      }
    }

    method Write(f: Frame) returns (r: Result<()>)
      requires WellFormed(f)
      modifies this`pending
      ensures (r, View()) == WriteTo(old(View()), f)
    {
      if closed {
        return Err("table is closed");
      }
      var taken := pending;
      pending := EMPTY;
      match AppendOptional(Some(taken), f)
      case Ok(appended) =>
        pending := appended;
        r := Ok(());
      case Err(message) =>
        r := Err(message);
    }

    /** Commits like a memory handle; an object that cannot be read is left as it is. */
    method Close() returns (r: Result<()>)
      requires WellFormed(pending) && Lossless(parquet)
      modifies this`closed, storage
      ensures forall tables :: Holds(parquet, old(storage.objects), tables) ==>
        && (r, View()) == (CloseOn(tables, old(View())).0, CloseOn(tables, old(View())).2)
        && Holds(parquet, storage.objects, CloseOn(tables, old(View())).1)
      ensures r.Err? ==> storage.objects == old(storage.objects) && View() == old(View())
      ensures (!old(closed) && !NothingToCommit(old(View())) && !truncate && Object(key) in old(storage.objects) &&
               parquet.decode(old(storage.objects)[Object(key)]).None?) ==> r.Err?
    {
      if closed {
        return Err("table is closed");
      }
      if pending.rows == [] && (!truncate || pending.columns == []) {
        closed := true;
        return Ok(());
      }
      forall tables | Holds(parquet, storage.objects, tables) ensures HoldsAt(parquet, storage.objects, tables, key) {}
      var committed := None;
      if !truncate && Object(key) in storage.objects {
        committed := parquet.decode(storage.objects[Object(key)]);
        if committed.None? {
          return Err("cannot read parquet table");
        }
      }
      var appended := AppendOptional(committed, pending);
      if appended.Err? {
        return Err(appended.message);
      }
      forall tables | Holds(parquet, storage.objects, tables)
        ensures Holds(parquet, storage.objects[Object(key) := parquet.encode(appended.value)],
          tables[key := appended.value])
      {
        AppendedWellFormed(committed, pending);
        HoldsAfterSet(parquet, storage.objects, tables, key, appended.value);
      }
      storage.objects := storage.objects[Object(key) := parquet.encode(appended.value)];
      closed := true;
      r := Ok(());
    }

    method AbortWrites()
      modifies this`pending, this`closed
      ensures View() == Abort(old(View()))
    {
      pending, closed := EMPTY, true;
    }

    method Next() returns (row: Option<Row>)
      modifies this`readIndex
      ensures (row, View()) == NextRow(old(View()))
    {
      var existingRows := if existing.Some? then |existing.value.rows| else 0;
      if existing.Some? && readIndex < existingRows {
        row := Some(existing.value.rows[readIndex]);
      } else {
        var pendingIndex := if readIndex < existingRows then 0 else readIndex - existingRows;
        if pendingIndex >= |pending.rows| {
          return None;
        }
        row := Some(pending.rows[pendingIndex]);
      }
      readIndex := readIndex + 1;
    }
  }

  // ----- many handles on one store -----

  /**
   * A store, its handles, and for each handle the rows it has yielded and whether staged rows were
   * dropped under its reader.
   */
  datatype World = World(tables: Committed, handles: seq<Handle>, yielded: seq<seq<Row>>, dropped: seq<bool>)

  datatype Event =
    | Open(key: string, truncate: bool)
    | Write(at: nat, frame: Frame)
    | Close(at: nat)
    | AbortAt(at: nat)
    | Read(at: nat)

  ghost predicate Shaped(w: World) {
    && |w.handles| == |w.yielded| == |w.dropped|
    && (forall key :: key in w.tables ==> WellFormed(w.tables[key]))
    && (forall k :: 0 <= k < |w.handles| ==>
          && WellFormed(w.handles[k].pending)
          && (w.handles[k].existing.Some? ==> WellFormed(w.handles[k].existing.value)))
  }

  /** An event names an open handle and a well formed frame. */
  ghost predicate Allowed(w: World, e: Event) {
    match e
    case Open(_, _) => true
    case Write(at, frame) => at < |w.handles| && WellFormed(frame)
    case Close(at) => at < |w.handles|
    case AbortAt(at) => at < |w.handles|
    case Read(at) => at < |w.handles|
  }

  /** The reader is past the existing rows: it has yielded staged ones. */
  predicate ReadsStaged(h: Handle) {
    h.readIndex > |ExistingRows(h)|
  }

  ghost function Step(w: World, e: Event): World
    requires Shaped(w) && Allowed(w, e)
  {
    match e
    case Open(key, truncate) =>
      World(w.tables, w.handles + [OpenHandle(w.tables, key, truncate)], w.yielded + [[]], w.dropped + [false])
    case Write(at, frame) =>
      var (r, h) := WriteTo(w.handles[at], frame);
      w.(handles := w.handles[at := h],
         dropped := w.dropped[at := w.dropped[at] || (r.Err? && !w.handles[at].closed && ReadsStaged(w.handles[at]))])
    case Close(at) =>
      var (_, tables, h) := CloseOn(w.tables, w.handles[at]);
      w.(tables := tables, handles := w.handles[at := h])
    case AbortAt(at) =>
      w.(handles := w.handles[at := Abort(w.handles[at])],
         dropped := w.dropped[at := w.dropped[at] || ReadsStaged(w.handles[at])])
    case Read(at) =>
      var (row, h) := NextRow(w.handles[at]);
      w.(handles := w.handles[at := h],
         yielded := if row.Some? then w.yielded[at := w.yielded[at] + [row.value]] else w.yielded)
  }

  // ----- the abstract table -----

  /** A set of typed columns and rows by column name, whatever order the columns stand in. */
  datatype Sheet = Sheet(columns: set<Column>, rows: seq<NamedRow>)

  const BLANK := Sheet({}, [])

  datatype Staging = Staging(key: string, truncate: bool, staged: Sheet, closed: bool)

  datatype Plain = Plain(tables: map<string, Sheet>, handles: seq<Staging>)

  /** Sheets of the same columns concatenate, one without rows gives way to the other, and no others can be joined. */
  ghost function AppendSheet(existing: Sheet, pending: Sheet): Option<Sheet> {
    if existing.rows == [] then Some(pending)
    else if pending.rows == [] then Some(existing)
    else if existing.columns == pending.columns then Some(existing.(rows := existing.rows + pending.rows))
    else None
  }

  /** The tables after a close, or nothing when it is refused. */
  ghost function PlainClose(tables: map<string, Sheet>, s: Staging): Option<map<string, Sheet>> {
    if s.closed then None
    // a truncating handle that staged no columns leaves the table as it was
    else if s.staged.rows == [] && (!s.truncate || s.staged.columns == {}) then Some(tables)
    else
      match AppendSheet(if s.truncate || s.key !in tables then BLANK else tables[s.key], s.staged)
      case Some(sheet) => Some(tables[s.key := sheet])
      case None => None
  }

  /** What is staged after a write, or nothing when it is refused. */
  ghost function PlainWrite(s: Staging, f: Frame): Option<Sheet>
    requires WellFormed(f)
  {
    if s.closed then None else AppendSheet(s.staged, SheetOf(f))
  }

  ghost predicate PlainAllowed(p: Plain, e: Event) {
    (e.Open? || e.at < |p.handles|) && (e.Write? ==> WellFormed(e.frame))
  }

  ghost function PlainStep(p: Plain, e: Event): (r: Plain)
    requires PlainAllowed(p, e)
  {
    match e
    case Open(key, truncate) => p.(handles := p.handles + [Staging(key, truncate, BLANK, false)])
    case Write(at, frame) =>
      var h := p.handles[at];
      var staged := match PlainWrite(h, frame) case Some(sheet) => sheet case None => BLANK;
      if h.closed then p else p.(handles := p.handles[at := h.(staged := staged)])
    case Close(at) =>
      var h := p.handles[at];
      (match PlainClose(p.tables, h)
       case Some(tables) => Plain(tables, p.handles[at := h.(closed := true)])
       case None => p)
    case AbortAt(at) => p.(handles := p.handles[at := p.handles[at].(staged := BLANK, closed := true)])
    case Read(at) => p
  }

  ghost predicate PlainAccepts(p: Plain, e: Event)
    requires PlainAllowed(p, e)
  {
    match e
    case Write(at, frame) => PlainWrite(p.handles[at], frame).Some?
    case Close(at) => PlainClose(p.tables, p.handles[at]).Some?
    case _ => true
  }

  // ----- the store refines it -----

  ghost function ColumnSet(columns: seq<Column>): set<Column> {
    set c | c in columns
  }

  ghost function SheetOf(f: Frame): Sheet
    requires WellFormed(f)
  {
    Sheet(ColumnSet(f.columns), NamedRows(f))
  }

  ghost function SheetsOf(tables: Committed): map<string, Sheet>
    requires forall key :: key in tables ==> WellFormed(tables[key])
  {
    map key | key in tables :: SheetOf(tables[key])
  }

  ghost function StagingOf(h: Handle): Staging
    requires WellFormed(h.pending)
  {
    Staging(h.key, h.truncate, SheetOf(h.pending), h.closed)
  }

  ghost function PlainOf(w: World): (p: Plain)
    requires Shaped(w)
    ensures |p.handles| == |w.handles|
  {
    Plain(SheetsOf(w.tables), seq(|w.handles|, k requires 0 <= k < |w.handles| => StagingOf(w.handles[k])))
  }

  ghost predicate Accepted(w: World, e: Event)
    requires Shaped(w) && Allowed(w, e)
  {
    match e
    case Write(at, frame) => WriteTo(w.handles[at], frame).0.Ok?
    case Close(at) => CloseOn(w.tables, w.handles[at]).0.Ok?
    case _ => true
  }

  /** Selecting by name gives a column back exactly when the frame has that very column. */
  lemma SelectedColumn(f: Frame, order: seq<Column>, i: nat)
    requires WellFormed(f) && Names(order) == Names(f.columns) && i < |order|
    ensures SelectColumns(f, order)[i] == order[i] <==> order[i] in f.columns
  {
    assert order[i].name in Names(order);
  }

  /** The check of `append_dataframe` passes exactly when both frames have the same columns in some order. */
  lemma SameColumns(existing: Frame, pending: Frame)
    requires WellFormed(existing) && WellFormed(pending)
    ensures Names(existing.columns) == Names(pending.columns)
        && SelectColumns(pending, existing.columns) == existing.columns
      <==> ColumnSet(existing.columns) == ColumnSet(pending.columns)
  {
    if ColumnSet(existing.columns) == ColumnSet(pending.columns) {
      SameNames(existing.columns, pending.columns);
      SameNames(pending.columns, existing.columns);
      assert forall i :: 0 <= i < |existing.columns| ==> existing.columns[i] in ColumnSet(existing.columns);
    }
    if Names(existing.columns) == Names(pending.columns) {
      forall i | 0 <= i < |existing.columns|
        ensures SelectColumns(pending, existing.columns)[i] == existing.columns[i]
          <==> existing.columns[i] in pending.columns
      {
        SelectedColumn(pending, existing.columns, i);
      }
      if SelectColumns(pending, existing.columns) == existing.columns {
        SelectedAll(existing, pending);
      }
    }
  }

  lemma SameNames(columns: seq<Column>, others: seq<Column>)
    requires ColumnSet(columns) <= ColumnSet(others)
    ensures Names(columns) <= Names(others)
  {
    forall k | 0 <= k < |columns| ensures columns[k].name in Names(others) {
      assert columns[k] in ColumnSet(columns);
    }
  }

  lemma SelectedAll(existing: Frame, pending: Frame)
    requires WellFormed(pending) && Names(existing.columns) == Names(pending.columns)
    requires forall i :: 0 <= i < |existing.columns| ==> existing.columns[i] in pending.columns
    ensures ColumnSet(existing.columns) == ColumnSet(pending.columns)
  {
    forall k | 0 <= k < |pending.columns| ensures pending.columns[k] in existing.columns {
      assert pending.columns[k].name in Names(existing.columns);
      var i :| 0 <= i < |existing.columns| && existing.columns[i].name == pending.columns[k].name;
      assert existing.columns[i] in pending.columns;
    }
  }

  /** Frames are appended exactly when their sheets are, and give the frame of the joined sheet. */
  lemma AppendRefines(existing: Frame, pending: Frame)
    requires WellFormed(existing) && WellFormed(pending)
    ensures AppendDataframe(existing, pending).Ok? <==> AppendSheet(SheetOf(existing), SheetOf(pending)).Some?
    ensures AppendDataframe(existing, pending).Ok? ==>
      && WellFormed(AppendDataframe(existing, pending).value)
      && AppendSheet(SheetOf(existing), SheetOf(pending)) == Some(SheetOf(AppendDataframe(existing, pending).value))
  {
    if existing.rows != [] && pending.rows != [] {
      SameColumns(existing, pending);
      if AppendDataframe(existing, pending).Ok? {
        AppendConcatenates(existing, pending);
      }
    }
  }

  lemma WriteRefines(h: Handle, f: Frame)
    requires WellFormed(h.pending) && WellFormed(f)
    ensures WriteTo(h, f).0.Ok? <==> PlainWrite(StagingOf(h), f).Some?
    ensures var after := WriteTo(h, f).1;
      && WellFormed(after.pending)
      && (WriteTo(h, f).0.Ok? ==> PlainWrite(StagingOf(h), f) == Some(SheetOf(after.pending)))
  {
    AppendRefines(h.pending, f);
  }

  lemma SheetsAfterSet(tables: Committed, key: string, f: Frame)
    requires WellFormed(f) && forall k :: k in tables ==> WellFormed(tables[k])
    ensures SheetsOf(tables[key := f]) == SheetsOf(tables)[key := SheetOf(f)]
  {
  }

  lemma StagedColumns(columns: seq<Column>)
    ensures ColumnSet(columns) == {} <==> columns == []
  {
    assert columns != [] ==> columns[0] in ColumnSet(columns);
  }

  lemma CloseRefines(tables: Committed, h: Handle)
    requires WellFormed(h.pending) && forall key :: key in tables ==> WellFormed(tables[key])
    ensures var (r, after, _) := CloseOn(tables, h);
      && (r.Ok? <==> PlainClose(SheetsOf(tables), StagingOf(h)).Some?)
      && (forall key :: key in after ==> WellFormed(after[key]))
      && (r.Ok? ==> PlainClose(SheetsOf(tables), StagingOf(h)) == Some(SheetsOf(after)))
  {
    hide AppendDataframe, SelectColumns, ColumnSet;
    StagedColumns(h.pending.columns);
    var existing := if h.truncate || h.key !in tables then None else Some(tables[h.key]);
    if existing.Some? {
      AppendRefines(existing.value, h.pending);
    }
    if AppendOptional(existing, h.pending).Ok? {
      SheetsAfterSet(tables, h.key, AppendOptional(existing, h.pending).value);
    }
  }

  ghost function TableRows(w: World, key: string): seq<NamedRow>
    requires Shaped(w)
  {
    if key in w.tables then NamedRows(w.tables[key]) else []
  }

  /**
   * Closing a truncating handle leaves exactly the staged rows in the table, unless it
   * staged no columns, which leaves the old rows where they are.
   */
  lemma CloseTruncates(w: World, at: nat)
    requires Shaped(w) && at < |w.handles| && w.handles[at].truncate && !w.handles[at].closed
    ensures CloseOn(w.tables, w.handles[at]).0.Ok?
    ensures var h := w.handles[at];
      var (_, tables, _) := CloseOn(w.tables, h);
      (if h.key in tables then NamedRows(tables[h.key]) else []) == NamedRows(h.pending)
      <==> h.pending.columns != [] || TableRows(w, h.key) == []
  {
  }

  lemma StepKeepsShape(w: World, e: Event)
    requires Shaped(w) && Allowed(w, e)
    ensures Shaped(Step(w, e))
  {
    match e
    case Write(at, frame) =>
      if AppendDataframe(w.handles[at].pending, frame).Ok? {
        AppendConcatenates(w.handles[at].pending, frame);
      }
    case Close(at) => CloseKeepsFrames(w, at);
    case _ =>
  }

  lemma CloseKeepsFrames(w: World, at: nat)
    requires Shaped(w) && at < |w.handles|
    ensures forall key :: key in CloseOn(w.tables, w.handles[at]).1 ==>
      WellFormed(CloseOn(w.tables, w.handles[at]).1[key])
  {
    var h := w.handles[at];
    if !h.truncate && h.key in w.tables && AppendDataframe(w.tables[h.key], h.pending).Ok? {
      AppendConcatenates(w.tables[h.key], h.pending);
    }
  }

  lemma NoColumns()
    ensures SheetOf(EMPTY) == BLANK
  {
  }

  /** Where one handle changes, one abstract handle changes. */
  lemma HandleSet(w: World, after: World, at: nat)
    requires Shaped(w) && Shaped(after) && at < |w.handles| == |after.handles|
    requires after.handles == w.handles[at := after.handles[at]]
    ensures PlainOf(after).handles == PlainOf(w).handles[at := StagingOf(after.handles[at])]
  {
  }

  lemma WriteStepRefines(w: World, e: Event)
    requires e.Write? && Shaped(w) && Allowed(w, e) && Shaped(Step(w, e))
    ensures PlainOf(Step(w, e)) == PlainStep(PlainOf(w), e)
    ensures Accepted(w, e) <==> PlainAccepts(PlainOf(w), e)
  {
    NoColumns();
    WriteRefines(w.handles[e.at], e.frame);
    HandleSet(w, Step(w, e), e.at);
  }

  lemma CloseStepRefines(w: World, e: Event)
    requires e.Close? && Shaped(w) && Allowed(w, e) && Shaped(Step(w, e))
    ensures PlainOf(Step(w, e)) == PlainStep(PlainOf(w), e)
    ensures Accepted(w, e) <==> PlainAccepts(PlainOf(w), e)
  {
    CloseRefines(w.tables, w.handles[e.at]);
    HandleSet(w, Step(w, e), e.at);
  }

  lemma AbortStepRefines(w: World, e: Event)
    requires e.AbortAt? && Shaped(w) && Allowed(w, e) && Shaped(Step(w, e))
    ensures PlainOf(Step(w, e)) == PlainStep(PlainOf(w), e)
  {
    NoColumns();
    HandleSet(w, Step(w, e), e.at);
  }

  lemma OpenStepRefines(w: World, e: Event)
    requires e.Open? && Shaped(w) && Shaped(Step(w, e))
    ensures PlainOf(Step(w, e)) == PlainStep(PlainOf(w), e)
  {
    NoColumns();
  }

  lemma ReadStepRefines(w: World, e: Event)
    requires e.Read? && Shaped(w) && Allowed(w, e) && Shaped(Step(w, e))
    ensures PlainOf(Step(w, e)) == PlainStep(PlainOf(w), e)
  {
    HandleSet(w, Step(w, e), e.at);
  }

  /** The store accepts what the abstract table accepts, and both do the same with it. */
  lemma StepRefines(w: World, e: Event)
    requires Shaped(w) && Allowed(w, e)
    ensures Shaped(Step(w, e)) && PlainOf(Step(w, e)) == PlainStep(PlainOf(w), e)
    ensures Accepted(w, e) <==> PlainAccepts(PlainOf(w), e)
  {
    hide Step, PlainStep, PlainOf;
    StepKeepsShape(w, e);
    match e
    case Open(_, _) => OpenStepRefines(w, e);
    case Write(_, _) => WriteStepRefines(w, e);
    case Close(_) => CloseStepRefines(w, e);
    case AbortAt(_) => AbortStepRefines(w, e);
    case Read(_) => ReadStepRefines(w, e);
  }

  ghost predicate AllowedRun(w: World, events: seq<Event>)
    requires Shaped(w)
    decreases |events|
  {
    events == [] ||
      (Allowed(w, events[0]) && (StepKeepsShape(w, events[0]); AllowedRun(Step(w, events[0]), events[1..])))
  }

  ghost function Run(w: World, events: seq<Event>): (r: World)
    requires Shaped(w) && AllowedRun(w, events)
    ensures Shaped(r)
    decreases |events|
  {
    if events == [] then w else StepKeepsShape(w, events[0]); Run(Step(w, events[0]), events[1..])
  }

  ghost predicate PlainAllowedRun(p: Plain, events: seq<Event>)
    decreases |events|
  {
    events == [] || (PlainAllowed(p, events[0]) && PlainAllowedRun(PlainStep(p, events[0]), events[1..]))
  }

  ghost function PlainRun(p: Plain, events: seq<Event>): Plain
    requires PlainAllowedRun(p, events)
    decreases |events|
  {
    if events == [] then p else PlainRun(PlainStep(p, events[0]), events[1..])
  }

  /** Which events of a run the store accepts. */
  ghost function Verdicts(w: World, events: seq<Event>): seq<bool>
    requires Shaped(w) && AllowedRun(w, events)
    decreases |events|
  {
    if events == [] then []
    else StepKeepsShape(w, events[0]); [Accepted(w, events[0])] + Verdicts(Step(w, events[0]), events[1..])
  }

  ghost function PlainVerdicts(p: Plain, events: seq<Event>): seq<bool>
    requires PlainAllowedRun(p, events)
    decreases |events|
  {
    if events == [] then [] else [PlainAccepts(p, events[0])] + PlainVerdicts(PlainStep(p, events[0]), events[1..])
  }

  /**
   * Over every interleaving of handles, the store accepts the writes and closes that the abstract
   * table accepts, and its tables and handles hold the sheets that the abstract ones hold.
   */
  lemma {:induction false} RunRefines(w: World, events: seq<Event>)
    requires Shaped(w) && AllowedRun(w, events)
    ensures PlainAllowedRun(PlainOf(w), events)
    ensures PlainOf(Run(w, events)) == PlainRun(PlainOf(w), events)
    ensures Verdicts(w, events) == PlainVerdicts(PlainOf(w), events)
    decreases |events|
  {
    if events != [] {
      StepRefines(w, events[0]);
      RunRefines(Step(w, events[0]), events[1..]);
    }
  }

  // ----- reading -----

  /** What a handle has yielded is a prefix of what it shows, unless staged rows it had yielded were dropped. */
  ghost predicate YieldsInOrder(w: World)
    requires Shaped(w)
  {
    forall k :: 0 <= k < |w.handles| && !w.dropped[k] ==> InOrder(w.handles[k], w.yielded[k])
  }

  ghost predicate InOrder(h: Handle, yielded: seq<Row>) {
    h.readIndex <= |Visible(h)| && yielded == Visible(h)[..h.readIndex]
  }

  lemma WriteInOrder(h: Handle, yielded: seq<Row>, f: Frame)
    requires WellFormed(f) && InOrder(h, yielded) && (WriteTo(h, f).0.Ok? || h.closed)
    ensures InOrder(WriteTo(h, f).1, yielded)
  {
    if !h.closed {
      AppendKeepsPrefix(h.pending, f);
      var more := Visible(WriteTo(h, f).1);
      assert Visible(h) <= more;
      assert more[..h.readIndex] == Visible(h)[..h.readIndex];
    }
  }

  /** A rejected write puts the reader out of step exactly when it had yielded staged rows, which are gone now. */
  lemma RejectedWriteInOrder(h: Handle, yielded: seq<Row>, f: Frame)
    requires WellFormed(f) && InOrder(h, yielded) && !h.closed && WriteTo(h, f).0.Err?
    ensures InOrder(WriteTo(h, f).1, yielded) <==> !ReadsStaged(h)
  {
    var after := WriteTo(h, f).1;
    assert Visible(after) == ExistingRows(h);
    if !ReadsStaged(h) {
      assert Visible(h)[..h.readIndex] == ExistingRows(h)[..h.readIndex];
    }
  }

  /** Aborting does the same. */
  lemma AbortInOrder(h: Handle, yielded: seq<Row>)
    requires InOrder(h, yielded)
    ensures InOrder(Abort(h), yielded) <==> !ReadsStaged(h)
  {
    assert Visible(Abort(h)) == ExistingRows(h);
    if !ReadsStaged(h) {
      assert Visible(h)[..h.readIndex] == ExistingRows(h)[..h.readIndex];
    }
  }

  lemma ReadInOrder(h: Handle, yielded: seq<Row>)
    requires InOrder(h, yielded)
    ensures var (row, after) := NextRow(h); InOrder(after, if row.Some? then yielded + [row.value] else yielded)
  {
  }

  lemma StepYieldsInOrder(w: World, e: Event)
    requires Shaped(w) && Allowed(w, e) && YieldsInOrder(w) && Shaped(Step(w, e))
    ensures YieldsInOrder(Step(w, e))
  {
    var after := Step(w, e);
    forall k | 0 <= k < |after.handles| && !after.dropped[k] ensures InOrder(after.handles[k], after.yielded[k]) {
      assert k < |w.handles| && !w.dropped[k] ==> InOrder(w.handles[k], w.yielded[k]);
      match e
      case Write(at, frame) =>
        if k == at {
          WriteStepInOrder(w.handles[at], w.yielded[at], frame);
        }
      case Read(at) =>
        if k == at {
          ReadInOrder(w.handles[at], w.yielded[at]);
        }
      case Close(at) =>
        if k == at {
          CloseShowsSame(w.tables, w.handles[at]);
        }
      case AbortAt(at) =>
        if k == at {
          AbortInOrder(w.handles[at], w.yielded[at]);
        }
      case _ =>
    }
  }

  lemma WriteStepInOrder(h: Handle, yielded: seq<Row>, f: Frame)
    requires WellFormed(f) && InOrder(h, yielded)
    ensures (WriteTo(h, f).0.Err? && !h.closed && ReadsStaged(h)) || InOrder(WriteTo(h, f).1, yielded)
  {
    if WriteTo(h, f).0.Err? && !h.closed {
      RejectedWriteInOrder(h, yielded, f);
    } else {
      WriteInOrder(h, yielded, f);
    }
  }

  lemma CloseShowsSame(tables: Committed, h: Handle)
    requires WellFormed(h.pending)
    ensures CloseOn(tables, h).2 == h || CloseOn(tables, h).2 == h.(closed := true)
  {
  }

  /**
   * Over every interleaving, reads give existing then staged rows, each once, also across
   * rejected writes and aborts, as long as none of these drops rows already yielded.
   */
  lemma {:induction false} RunYieldsInOrder(w: World, events: seq<Event>)
    requires Shaped(w) && AllowedRun(w, events) && YieldsInOrder(w)
    ensures YieldsInOrder(Run(w, events))
    decreases |events|
  {
    if events != [] {
      StepKeepsShape(w, events[0]);
      StepYieldsInOrder(w, events[0]);
      RunYieldsInOrder(Step(w, events[0]), events[1..]);
    }
  }

  /** A reader in order is told that there are no more rows when it has yielded all of them, for `RunEndsRows`. */
  lemma EndOfRows(w: World, at: nat)
    requires Shaped(w) && at < |w.handles| && YieldsInOrder(w) && !w.dropped[at]
    ensures NextRow(w.handles[at]).0.None? <==> w.yielded[at] == Visible(w.handles[at])
  {
    var h := w.handles[at];
    if w.yielded[at] == Visible(h) {
      assert |Visible(h)[..h.readIndex]| == h.readIndex;
    }
  }

  /**
   * After every interleaving, a reader whose rows were not dropped is told that there are
   * no more rows exactly when it has yielded all that its handle shows.
   */
  lemma RunEndsRows(w: World, events: seq<Event>, at: nat)
    requires Shaped(w) && AllowedRun(w, events) && YieldsInOrder(w)
    requires at < |Run(w, events).handles| && !Run(w, events).dropped[at]
    ensures NextRow(Run(w, events).handles[at]).0.None?
      <==> Run(w, events).yielded[at] == Visible(Run(w, events).handles[at])
  {
    RunYieldsInOrder(w, events);
    EndOfRows(Run(w, events), at);
  }

  /** What a handle shows and yields when a write of `bad` is rejected after `staged` was staged and read. */
  ghost predicate SkipsRows(open: Handle, staged: Frame, bad: Frame)
    requires WellFormed(staged) && WellFormed(bad)
  {
    var read := NextRow(WriteTo(open, staged).1).1;
    var (rejected, emptied) := WriteTo(read, bad);
    var (accepted, again) := WriteTo(emptied, staged);
    && rejected.Err? && accepted.Ok?
    && Visible(again) == staged.rows != [] && NextRow(again).0.None?
  }

  lemma WriteOntoNothing(h: Handle, f: Frame)
    requires WellFormed(f) && !h.closed && h.pending.rows == []
    ensures WriteTo(h, f) == (Ok(()), h.(pending := f))
  {
  }

  lemma WriteOtherColumns(h: Handle, f: Frame)
    requires WellFormed(f) && !h.closed && h.pending.rows != [] && f.rows != []
    requires Names(h.pending.columns) != Names(f.columns)
    ensures WriteTo(h, f).0.Err? && WriteTo(h, f).1 == h.(pending := EMPTY)
  {
  }

  lemma DistinctColumns(a: Column, b: Column, cell: Cell)
    requires a.name != b.name
    ensures Names([a]) != Names([b])
    ensures WellFormed(Frame([a], [[cell]])) && WellFormed(Frame([b], [[cell]]))
  {
    assert b.name in Names([b]) by { assert [b][0] == b; }
    assert b.name !in Names([a]);
  }

  /**
   * On every truncating handle a rejected write can make the reader skip newly staged rows:
   * its position outlives the rows that it counted.
   */
  lemma RejectedWriteSkipsRows(tables: Committed, key: string)
    ensures exists staged, bad ::
      WellFormed(staged) && WellFormed(bad) && SkipsRows(OpenHandle(tables, key, true), staged, bad)
  {
    hide WriteTo, WellFormed, Names;
    var a, b := Column("a", "str"), Column("b", "str");
    var staged, bad := Frame([a], [[NullCell]]), Frame([b], [[NullCell]]);
    DistinctColumns(a, b, NullCell);
    var open := OpenHandle(tables, key, true);
    WriteOntoNothing(open, staged);
    var read := NextRow(WriteTo(open, staged).1).1;
    assert read == open.(pending := staged, readIndex := 1);
    WriteOtherColumns(read, bad);
    WriteOntoNothing(WriteTo(read, bad).1, staged);
    assert SkipsRows(open, staged, bad);
  }
}
