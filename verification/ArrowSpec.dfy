/** The Arrow encoder (arrowtype/encode.go, arrowtype/columns.go) on values: what one cell, one row and
    one column append do to the builders and to the per-column statistics. */
module ArrowSpec {
  import opened Text

  /** A double: finite ones are mathematical reals. */
  datatype Float = NonFinite | Finite(r: real)

  /** An evaluated attribute value; a list or a nested ad is known by its text. */
  datatype Value = Undefined | Error | IntV(i: int) | RealV(f: Float) | BoolV(b: bool) | StrV(s: string)
    | Composite(isAd: bool, text: string)

  datatype Cause = Absent | WasUndefined | WasError | Uncoercible | NonNullable

  datatype Kind = IntK | RealK | BoolK | StringK | TimeK | OtherK

  /** A builder's cell. Rounded is an integer a double cannot hold, Rendered a value's ClassAd text, and
      TimeOdd a double whose conversion to int64 the language leaves open. */
  datatype Cell =
    | Null
    | IntC(i: int) | RealC(f: Float) | BoolC(b: bool) | StrC(s: string) | TimeC(secs: int)
    | Rounded(n: int) | Rendered(v: Value) | TimeOdd(odd: Float)

  /** nulls counts the null cells by cause. */
  datatype Stats = Stats(direct: nat, exact: nat, lossy: nat, nulls: multiset<Cause>)

  datatype Column = Column(name: string, kind: Kind, nullable: bool, cells: seq<Cell>, stats: Stats)

  datatype Fault =
    | HasTail | WrongWidth | Violation(attr: string, cause: Cause) | Refused(attr: string) | Loses(attr: string)

  datatype Enc = Enc(cols: seq<Column>, tail: Option<nat>, strict: bool, rows: nat)

  const MAX_EXACT: int := 0x20_0000_0000_0000
  const TWO63: real := 9223372036854775808.0

  function Total(s: Stats): nat { s.direct + s.exact + s.lossy + |s.nulls| }

  // ---------------------------------------------------------------------------------------
  // One value into one kind of column.

  /** What coerce decides: how the value was stored, or that it could not be. */
  datatype Outcome = Direct(cell: Cell) | Exact(cell: Cell) | Lossy(cell: Cell) | Refuse | Missing(cause: Cause)

  predicate FitsDouble(n: int) { -MAX_EXACT <= n <= MAX_EXACT }

  function ExactInt(f: Float): Option<int> {
    if f.NonFinite? then None
    else
      var n := f.r.Floor;
      if n as real != f.r || !FitsDouble(n) then None else Some(n)
  }

  /** int64(f): truncation toward zero. */
  function Truncate(f: Float): Cell {
    if f.NonFinite? || f.r >= TWO63 || f.r < -TWO63 then TimeOdd(f)
    else if f.r >= 0.0 then TimeC(f.r.Floor) else TimeC(-((-f.r).Floor))
  }

  function BoolInt(b: bool): int { if b then 1 else 0 }

  function Coerce(k: Kind, v: Value): Outcome
    requires v != Undefined && v != Error
  {
    match k
    case IntK => (match v
      case IntV(n) => Direct(IntC(n))
      case BoolV(b) => Exact(IntC(BoolInt(b)))
      case RealV(f) => if ExactInt(f).Some? then Exact(IntC(ExactInt(f).value)) else Refuse
      case _ => Refuse)
    case RealK => (match v
      case RealV(f) => Direct(RealC(f))
      case IntV(n) => if FitsDouble(n) then Exact(RealC(Finite(n as real))) else Lossy(Rounded(n))
      case BoolV(b) => Exact(RealC(Finite(BoolInt(b) as real)))
      case _ => Refuse)
    case BoolK => if v.BoolV? then Direct(BoolC(v.b)) else Refuse
    case StringK => if v.StrV? then Direct(StrC(v.s)) else Exact(Rendered(v))
    case TimeK => (match v
      case IntV(n) => Direct(TimeC(n))
      case RealV(f) => if ExactInt(f).Some? then Exact(Truncate(f)) else Lossy(Truncate(f))
      case _ => Refuse)
    case OtherK => Refuse
  }

  function Encode(k: Kind, v: Value): Outcome {
    match v
    case Undefined => Missing(WasUndefined)
    case Error => Missing(WasError)
    case _ => Coerce(k, v)
  }

  // ---------------------------------------------------------------------------------------
  // One cell into a column.

  function CellOf(o: Outcome): Cell { if o.Direct? || o.Exact? || o.Lossy? then o.cell else Null }

  function Counted(s: Stats, nullable: bool, o: Outcome): Stats {
    match o
    case Direct(_) => s.(direct := s.direct + 1)
    case Exact(_) => s.(exact := s.exact + 1)
    case Lossy(_) => s.(lossy := s.lossy + 1)
    case Refuse => s.(nulls := s.nulls + multiset{Uncoercible})
    case Missing(c) => s.(nulls := s.nulls + multiset{if nullable then c else NonNullable})
  }

  function Put(c: Column, o: Outcome): Column {
    c.(cells := c.cells + [CellOf(o)], stats := Counted(c.stats, c.nullable, o))
  }

  function FaultOf(c: Column, strict: bool, o: Outcome): Option<Fault> {
    match o
    case Lossy(_) => if strict then Some(Loses(c.name)) else None
    case Refuse => if strict then Some(Refused(c.name)) else None
    case Missing(cause) => if c.nullable then None else Some(Violation(c.name, cause))
    case _ => None
  }

  function OrElse(a: Option<Fault>, b: Option<Fault>): Option<Fault> { if a.Some? then a else b }

  // ---------------------------------------------------------------------------------------
  // One row.

  function FirstFault(cols: seq<Column>, strict: bool, outs: seq<Outcome>): Option<Fault>
    requires |outs| == |cols|
  {
    if cols == [] then None
    else
      var n := |cols| - 1;
      OrElse(FirstFault(cols[..n], strict, outs[..n]), FaultOf(cols[n], strict, outs[n]))
  }

  /** Every column takes one cell, whatever happened to it. */
  function PutRow(e: Enc, outs: seq<Outcome>): (Enc, Option<Fault>)
    requires |outs| == |e.cols|
  {
    (e.(cols := seq(|e.cols|, i requires 0 <= i < |e.cols| => Put(e.cols[i], outs[i])), rows := e.rows + 1),
     FirstFault(e.cols, e.strict, outs))
  }

  function Encoded(cols: seq<Column>, vals: seq<Value>): (outs: seq<Outcome>)
    requires |vals| == |cols|
    ensures |outs| == |cols|
  {
    seq(|cols|, i requires 0 <= i < |cols| => Encode(cols[i].kind, vals[i]))
  }

  function AppendValues(e: Enc, vals: seq<Value>): (Enc, Option<Fault>) {
    if e.tail.Some? then (e, Some(HasTail))
    else if |vals| != |e.cols| then (e, Some(WrongWidth))
    else PutRow(e, Encoded(e.cols, vals))
  }

  function AppendRows(e: Enc, grid: seq<seq<Value>>): Enc {
    if grid == [] then e
    else AppendValues(AppendRows(e, grid[..|grid| - 1]), grid[|grid| - 1]).0
  }

  // ---------------------------------------------------------------------------------------
  // A row from an ad.

  datatype Attr = Attr(name: string, text: string, value: Value)

  type Ad = seq<Attr>

  /** Lookup and EvaluateAttr: names ignore case; None is an absent attribute. */
  function Find(ad: Ad, name: string): Option<Value> {
    if ad == [] then None
    else if EqualFold(ad[0].name, name) then Some(ad[0].value)
    else Find(ad[1..], name)
  }

  function AdOutcome(c: Column, ad: Ad): Outcome {
    match Find(ad, c.name)
    case None => Missing(Absent)
    case Some(v) => Encode(c.kind, v)
  }

  /** The folded names of the typed columns. */
  function TypedNames(e: Enc): set<string> {
    set i | 0 <= i < |e.cols| && e.tail != Some(i) :: Fold(e.cols[i].name)
  }

  /** The tail's text so far: the attributes no column took, in the ad's order. */
  function TailText(ad: Ad, taken: set<string>): string {
    if ad == [] then ""
    else
      var n := |ad| - 1;
      var before := TailText(ad[..n], taken);
      if Fold(ad[n].name) in taken then before
      else before + (if before == "" then "[ " else "; ") + ad[n].text
  }

  function TailOutcome(ad: Ad, taken: set<string>): Outcome {
    var text := TailText(ad, taken);
    if text == "" then Missing(Absent) else Direct(StrC(text + " ]"))
  }

  function AdOutcomes(e: Enc, ad: Ad): (outs: seq<Outcome>)
    ensures |outs| == |e.cols|
  {
    seq(|e.cols|, i requires 0 <= i < |e.cols| =>
      if e.tail == Some(i) then TailOutcome(ad, TypedNames(e)) else AdOutcome(e.cols[i], ad))
  }

  function Append(e: Enc, ad: Ad): (Enc, Option<Fault>) { PutRow(e, AdOutcomes(e, ad)) }

  // ---------------------------------------------------------------------------------------
  // A batch of columns.

  datatype NullCell = NullCell(row: int, cause: Cause)

  /** None is Go's nil slice, which is not an empty one here. */
  datatype ColumnValues = ColumnValues(ints: Option<seq<int>>, reals: Option<seq<Float>>, bools: Option<seq<bool>>,
                                       strs: Option<seq<string>>, valid: seq<bv8>, nulls: seq<NullCell>)

  predicate BitSet(valid: seq<bv8>, i: nat) { i / 8 < |valid| && valid[i / 8] & ((1 as bv8) << (i % 8)) != 0 }

  /** How many of the rows before r have a value: row r's place among the dense values. */
  function Rank(valid: seq<bv8>, r: nat): (n: nat)
    ensures n <= r
  {
    if r == 0 then 0 else Rank(valid, r - 1) + if BitSet(valid, r - 1) then 1 else 0
  }

  function Present<T>(s: Option<seq<T>>): nat { if s.Some? then 1 else 0 }

  function Length<T>(s: Option<seq<T>>): nat { if s.Some? then |s.value| else 0 }

  /** dense: the dense length when exactly one slice is present. */
  function Dense(c: ColumnValues): Option<nat> {
    if Present(c.ints) + Present(c.reals) + Present(c.bools) + Present(c.strs) != 1 then None
    else Some(Length(c.ints) + Length(c.reals) + Length(c.bools) + Length(c.strs))
  }

  predicate ColumnFits(col: Column, rows: int, c: ColumnValues) {
    && Dense(c).Some? && Dense(c).value + |c.nulls| == rows
    && (c.nulls == [] || col.nullable)
    && match col.kind
       case IntK => c.ints.Some?
       case RealK => c.reals.Some?
       case StringK => c.strs.Some?
       case BoolK => c.bools.Some?
       case TimeK => c.ints.Some?
       case OtherK => false
  }

  /** The d-th dense value as a cell of the column. */
  function DenseCell(k: Kind, c: ColumnValues, d: nat): Cell {
    match k
    case IntK => if c.ints.Some? && d < |c.ints.value| then IntC(c.ints.value[d]) else Null
    case RealK => if c.reals.Some? && d < |c.reals.value| then RealC(c.reals.value[d]) else Null
    case StringK => if c.strs.Some? && d < |c.strs.value| then StrC(c.strs.value[d]) else Null
    case BoolK => if c.bools.Some? && d < |c.bools.value| then BoolC(c.bools.value[d]) else Null
    case TimeK => if c.ints.Some? && d < |c.ints.value| then TimeC(c.ints.value[d]) else Null
    case OtherK => Null
  }

  /** spread: a cell per row, from one per valid row. */
  function Spread(k: Kind, c: ColumnValues, rows: nat): (cells: seq<Cell>)
    ensures |cells| == rows
  {
    seq(rows, r requires 0 <= r < rows => if BitSet(c.valid, r) then DenseCell(k, c, Rank(c.valid, r)) else Null)
  }

  function Causes(nulls: seq<NullCell>): multiset<Cause> {
    if nulls == [] then multiset{} else Causes(nulls[..|nulls| - 1]) + multiset{nulls[|nulls| - 1].cause}
  }

  function AppendColumn(col: Column, rows: nat, c: ColumnValues): Column
    requires Dense(c).Some?
  {
    col.(cells := col.cells + Spread(col.kind, c, rows),
         stats := col.stats.(direct := col.stats.direct + Dense(c).value, nulls := col.stats.nulls + Causes(c.nulls)))
  }

  predicate BatchFits(e: Enc, rows: int, cols: seq<ColumnValues>) {
    && e.tail.None? && |cols| == |e.cols| && 0 <= rows
    && forall i :: 0 <= i < |cols| ==> ColumnFits(e.cols[i], rows, cols[i])
  }

  /** AppendColumns: the whole batch, or (None) nothing. */
  function AppendColumns(e: Enc, rows: int, cols: seq<ColumnValues>): Option<Enc> {
    if !BatchFits(e, rows, cols) then None
    else Some(e.(cols := seq(|cols|, i requires 0 <= i < |cols| => AppendColumn(e.cols[i], rows, cols[i])),
                 rows := e.rows + rows))
  }

  // ---------------------------------------------------------------------------------------
  // A batch as the relay carries it (flightsvc/statement.go).

  datatype RelayKind = KindInt | KindReal | KindBool | KindString | KindStringDict | KindOther

  datatype Exception = Exception(row: int, value: Value, nonScalar: bool)

  datatype ValueColumn = ValueColumn(kind: RelayKind, ints: Option<seq<int>>, reals: Option<seq<Float>>,
                                     bools: Option<seq<bool>>, strs: Option<seq<string>>, valid: seq<bv8>,
                                     exceptions: seq<Exception>)

  /** The length of the slice the kind names. */
  function DenseLength(c: ValueColumn): nat {
    match c.kind
    case KindInt => Length(c.ints)
    case KindReal => Length(c.reals)
    case KindBool => Length(c.bools)
    case KindString => Length(c.strs)
    case KindStringDict => Length(c.strs)
    case KindOther => 0
  }

  /** What the relay guarantees of a column: a dense value per set bit, and exceptions, in row order,
      for exactly the unset rows. */
  ghost predicate WellFormed(c: ValueColumn, rows: nat) {
    && (c.kind != KindOther ==> DenseLength(c) == Rank(c.valid, rows))
    && Ascending(c.exceptions)
    && (forall k :: 0 <= k < |c.exceptions| ==>
        0 <= c.exceptions[k].row < rows && !BitSet(c.valid, c.exceptions[k].row))
    && (forall r :: 0 <= r < rows && !BitSet(c.valid, r) ==> HasException(c.exceptions, r))
  }

  predicate Ascending(xs: seq<Exception>) { forall j, k :: 0 <= j < k < |xs| ==> xs[j].row < xs[k].row }

  predicate HasException(xs: seq<Exception>, r: int) { exists k :: 0 <= k < |xs| && xs[k].row == r }

  function DenseValue(c: ValueColumn, d: nat): Value {
    match c.kind
    case KindInt => if d < Length(c.ints) then IntV(c.ints.value[d]) else Error
    case KindReal => if d < Length(c.reals) then RealV(c.reals.value[d]) else Error
    case KindBool => if d < Length(c.bools) then BoolV(c.bools.value[d]) else Error
    case KindString => if d < Length(c.strs) then StrV(c.strs.value[d]) else Error
    case _ => Error
  }

  function ExceptionAt(xs: seq<Exception>, r: int): Value {
    if xs == [] then Undefined
    else if xs[0].row == r then xs[0].value
    else ExceptionAt(xs[1..], r)
  }

  /** Row r of the column, by search. */
  function ValueAt(c: ValueColumn, r: nat): Value {
    if BitSet(c.valid, r) then DenseValue(c, Rank(c.valid, r)) else ExceptionAt(c.exceptions, r)
  }

  function Unpacked(c: ValueColumn, rows: nat): (vs: seq<Value>)
    ensures |vs| == rows
  {
    seq(rows, r requires 0 <= r < rows => ValueAt(c, r))
  }

  /** The batch as rows. */
  function Grid(batch: seq<ValueColumn>, rows: nat): (g: seq<seq<Value>>)
    ensures |g| == rows
  {
    seq(rows, r requires 0 <= r < rows => seq(|batch|, i requires 0 <= i < |batch| => ValueAt(batch[i], r)))
  }

  function NullsOf(xs: seq<Exception>): Option<seq<NullCell>> {
    if xs == [] then Some([])
    else
      var n := |xs| - 1;
      var before := NullsOf(xs[..n]);
      if before.None? || xs[n].nonScalar then None
      else
        match xs[n].value
        case Undefined => Some(before.value + [NullCell(xs[n].row, WasUndefined)])
        case Error => Some(before.value + [NullCell(xs[n].row, WasError)])
        case _ => None
  }

  /** columnValuesOf: None when the fast path does not describe the column. */
  function ColumnValuesOf(c: ValueColumn): Option<ColumnValues> {
    var nulls := NullsOf(c.exceptions);
    if c.kind == KindOther || nulls.None? then None
    else
      Some(ColumnValues(if c.kind == KindInt then c.ints else None, if c.kind == KindReal then c.reals else None,
                        if c.kind == KindBool then c.bools else None,
                        if c.kind == KindString || c.kind == KindStringDict then c.strs else None, c.valid,
                            nulls.value))
  }

  function AllColumnValues(batch: seq<ValueColumn>): Option<seq<ColumnValues>> {
    if batch == [] then Some([])
    else
      var n := |batch| - 1;
      var before, last := AllColumnValues(batch[..n]), ColumnValuesOf(batch[n]);
      if before.None? || last.None? then None else Some(before.value + [last.value])
  }

  /** The callback's fast half: None is "use the per-cell path, nothing was appended". */
  function TakeBatch(e: Enc, rows: nat, batch: seq<ValueColumn>): Option<Enc> {
    if |batch| != |e.cols| then None
    else
      match AllColumnValues(batch)
      case None => None
      case Some(cols) => AppendColumns(e, rows, cols)
  }
}
