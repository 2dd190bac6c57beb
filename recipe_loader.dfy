/** js/recipe-loader.js: what the page shows once a recipe is loaded,
    reduced to its content: the ingredient rows, the time line, and the
    notes, deviations and lab-notebook panels. */
module RecipeLoader {
  import opened Options
  import opened NumberText
  import Utils
  import Scaling
  import opened RecipeData

  // ---------------------------------------------------------------------
  // formatQuantity (the copy in recipe-loader.js)
  // ---------------------------------------------------------------------

  /** The table this copy builds on every call. */
  const FRACTIONS: Utils.FractionTable := [
    (0.125, "\U{215B}"),
    (0.25, "\U{00BC}"),
    (0.333, "\U{2153}"),
    (0.375, "\U{215C}"),
    (0.5, "\U{00BD}"),
    (0.625, "\U{215D}"),
    (0.666, "\U{2154}"),
    (0.75, "\U{00BE}"),
    (0.875, "\U{215E}")
  ]

  /** What formatQuantity prints for n before the unit. */
  function BareText(n: real): string
  {
    if IsInteger(n) then IntText(n.Floor)
    else
      var whole := n.Floor;
      match Utils.Nearest(FRACTIONS, n - whole as real)
      case Some(k) => if whole > 0 then IntText(whole) + FRACTIONS[k].1 else FRACTIONS[k].1
      case None => DecimalText(n)
  }

  function QuantityText(num: Option<real>, unit: Option<string>): string
  {
    if num.None? then ""
    else if IsTruthy(unit) then BareText(num.value) + " " + unit.value
    else BareText(num.value)
  }

  method FormatBare(n: real) returns (s: string)
    ensures s == BareText(n)
  {
    if IsInteger(n) {
      return IntText(n.Floor);
    }
    var whole := n.Floor;
    var frac := n - whole as real;
    var closest := Utils.ClosestFraction(FRACTIONS, frac);
    if closest.Some? {
      s := if whole > 0 then IntText(whole) + FRACTIONS[closest.value].1 else FRACTIONS[closest.value].1;
    } else {
      s := StripZeros(ToFixed2(n));
    }
  }

  method FormatQuantity(num: Option<real>, unit: Option<string>) returns (s: string)
    ensures s == QuantityText(num, unit)
  {
    if num.None? {
      return "";
    }
    s := FormatBare(num.value);
    if IsTruthy(unit) {
      s := s + " " + unit.value;
    }
  }

  /** The copy prints what the scaler's copy prints, for every input. */
  lemma QuantityTextAgrees(num: Option<real>, unit: Option<string>)
    ensures QuantityText(num, unit) == Scaling.QuantityText(num, unit)
  {
    assert FRACTIONS == Scaling.FRACTIONS;
  }

  /** No quantity prints nothing; an integer prints as its digits, followed
      by " unit" exactly when the unit is truthy. */
  lemma QuantityTextBasics(num: Option<real>, unit: Option<string>)
    ensures num.None? ==> QuantityText(num, unit) == ""
    ensures num.Some? && IsInteger(num.value) ==>
      var digits := IntText(num.value.Floor);
      && (IsTruthy(unit) ==> QuantityText(num, unit) == digits + " " + unit.value)
      && (!IsTruthy(unit) ==> QuantityText(num, unit) == digits)
      && ReadInt(digits) == Some(num.value.Floor)
  {
    if num.Some? && IsInteger(num.value) {
      IntTextRoundTrip(num.value.Floor);
    }
  }

  // ---------------------------------------------------------------------
  // renderIngredients
  // ---------------------------------------------------------------------

  /** One rendered ingredient row: its data-group/data-item key, the text of
      its quantity span, the item name and the note suffix. */
  datatype Row = Row(key: RowKey, quantity: string, name: string, note: string)

  /** One group's section: its title and its rows. */
  datatype Block = Block(title: string, rows: seq<Row>)

  function GroupTitle(name: string): string
  {
    "\U{25C6} " + name
  }

  /** `item.note ? " - note" : ''` */
  function NoteText(note: Option<string>): string
  {
    if IsTruthy(note) then " - " + note.value else ""
  }

  /** The row for the item at position k; quantityMax takes no part. */
  function ItemRow(groups: seq<IngredientGroup>, k: RowKey): Row
    requires ValidKey(groups, k)
  {
    var item := ItemAt(groups, k);
    Row(k, QuantityText(item.quantity, item.unit), item.item, NoteText(item.note))
  }

  function GroupRows(groups: seq<IngredientGroup>, g: nat): seq<Row>
    requires g < |groups|
  {
    seq(|groups[g].items|, i requires 0 <= i < |groups[g].items| => ItemRow(groups, (g, i)))
  }

  function Blocks(groups: seq<IngredientGroup>): seq<Block>
  {
    seq(|groups|, g requires 0 <= g < |groups| => Block(GroupTitle(groups[g].name), GroupRows(groups, g)))
  }

  method RenderItem(groups: seq<IngredientGroup>, g: nat, i: nat) returns (row: Row)
    requires g < |groups| && i < |groups[g].items|
    ensures row == ItemRow(groups, (g, i))
  {
    var item := groups[g].items[i];
    var quantity := FormatQuantity(item.quantity, item.unit);
    var note := if IsTruthy(item.note) then " - " + item.note.value else "";
    row := Row((g, i), quantity, item.item, note);
  }

  method RenderGroup(groups: seq<IngredientGroup>, g: nat) returns (block: Block)
    requires g < |groups|
    ensures block == Blocks(groups)[g]
  {
    var rows: seq<Row> := [];
    var i: nat := 0;
    while i < |groups[g].items|
      invariant i <= |groups[g].items|
      invariant rows == GroupRows(groups, g)[..i]
    {
      var row := RenderItem(groups, g, i);
      rows := rows + [row];
      i := i + 1;
    }
    assert rows == GroupRows(groups, g);
    block := Block(GroupTitle(groups[g].name), rows);
  }

  method RenderIngredients(groups: seq<IngredientGroup>) returns (blocks: seq<Block>)
    ensures blocks == Blocks(groups)
    ensures Flatten(blocks) == AllRows(groups)
  {
    blocks := [];
    var g: nat := 0;
    while g < |groups|
      invariant g <= |groups|
      invariant blocks == Blocks(groups)[..g]
    {
      var block := RenderGroup(groups, g);
      blocks := blocks + [block];
      g := g + 1;
    }
    assert blocks == Blocks(groups);
    assert blocks[..|groups|] == blocks;
    FlattenBlocks(groups, |groups|);
  }

  /** Number of items in the first n groups. */
  function Offset(groups: seq<IngredientGroup>, n: nat): nat
    requires n <= |groups|
  {
    if n == 0 then 0 else Offset(groups, n - 1) + |groups[n - 1].items|
  }

  /** The rows of the first n groups, in page order. */
  function RowsUpTo(groups: seq<IngredientGroup>, n: nat): seq<Row>
    requires n <= |groups|
  {
    if n == 0 then [] else RowsUpTo(groups, n - 1) + GroupRows(groups, n - 1)
  }

  function AllRows(groups: seq<IngredientGroup>): seq<Row>
  {
    RowsUpTo(groups, |groups|)
  }

  /** The rows of a sequence of sections, section after section. */
  function Flatten(bs: seq<Block>): seq<Row>
  {
    if bs == [] then [] else Flatten(bs[..|bs| - 1]) + bs[|bs| - 1].rows
  }

  /** The first n rendered sections hold, in page order, the rows of the
      first n groups. */
  lemma {:induction false} FlattenBlocks(groups: seq<IngredientGroup>, n: nat)
    requires n <= |groups|
    ensures Flatten(Blocks(groups)[..n]) == RowsUpTo(groups, n)
  {
    if n > 0 {
      FlattenBlocks(groups, n - 1);
      assert Blocks(groups)[..n][..n - 1] == Blocks(groups)[..n - 1];
    }
  }

  /** Row keys in page order: by group, then by item. */
  predicate KeyBefore(a: RowKey, b: RowKey)
  {
    a.0 < b.0 || (a.0 == b.0 && a.1 < b.1)
  }

  lemma {:induction false} OffsetMonotone(groups: seq<IngredientGroup>, g: nat, n: nat)
    requires g < n <= |groups|
    ensures Offset(groups, g) + |groups[g].items| <= Offset(groups, n)
    decreases n
  {
    if g + 1 < n {
      OffsetMonotone(groups, g, n - 1);
    }
  }

  /** The rows of group g are the rows of its items, in item order. */
  lemma GroupRowsShape(groups: seq<IngredientGroup>, g: nat)
    requires g < |groups|
    ensures var rows := GroupRows(groups, g);
      && |rows| == |groups[g].items|
      && forall i :: 0 <= i < |rows| ==> rows[i] == ItemRow(groups, (g, i)) && rows[i].key == (g, i)
  {
  }

  /** The first n groups render Offset(n) rows. */
  lemma {:induction false} RowsUpToLength(groups: seq<IngredientGroup>, n: nat)
    requires n <= |groups|
    ensures |RowsUpTo(groups, n)| == Offset(groups, n)
  {
    if n > 0 {
      RowsUpToLength(groups, n - 1);
      GroupRowsShape(groups, n - 1);
    }
  }

  /** Row r is the row of the item its key names, in one of the first n groups. */
  predicate RowOfItem(groups: seq<IngredientGroup>, r: Row, n: nat)
  {
    ValidKey(groups, r.key) && r.key.0 < n && r == ItemRow(groups, r.key)
  }

  /** Each of those rows is the row of the item its key names. */
  lemma {:induction false} RowsUpToItems(groups: seq<IngredientGroup>, n: nat)
    requires n <= |groups|
    ensures forall j :: 0 <= j < |RowsUpTo(groups, n)| ==> RowOfItem(groups, RowsUpTo(groups, n)[j], n)
  {
    if n > 0 {
      RowsUpToItems(groups, n - 1);
      GroupRowsShape(groups, n - 1);
      ItemsStep(groups, n, RowsUpTo(groups, n - 1), GroupRows(groups, n - 1));
    }
  }

  /** Appending the rows of the items of group n - 1 to rows of items of
      earlier groups gives rows of items of the first n groups. */
  lemma ItemsStep(groups: seq<IngredientGroup>, n: nat, prev: seq<Row>, last: seq<Row>)
    requires 0 < n <= |groups|
    requires forall j :: 0 <= j < |prev| ==> RowOfItem(groups, prev[j], n - 1)
    requires |last| == |groups[n - 1].items|
    requires forall i :: 0 <= i < |last| ==> last[i] == ItemRow(groups, (n - 1, i)) && last[i].key == (n - 1, i)
    ensures var rows := prev + last;
      forall j :: 0 <= j < |rows| ==> RowOfItem(groups, rows[j], n)
  {
    var rows := prev + last;
    forall j | 0 <= j < |rows|
      ensures RowOfItem(groups, rows[j], n)
    {
      if j < |prev| {
        assert rows[j] == prev[j];
        assert RowOfItem(groups, prev[j], n - 1);
      } else {
        var i := j - |prev|;
        assert rows[j] == last[i];
      }
    }
  }

  /** Keys strictly increase in page order, so none repeats. */
  lemma {:induction false} RowsUpToOrdered(groups: seq<IngredientGroup>, n: nat)
    requires n <= |groups|
    ensures forall j1, j2 :: 0 <= j1 < j2 < |RowsUpTo(groups, n)| ==> KeyBefore(RowsUpTo(groups, n)[j1].key, RowsUpTo(groups, n)[j2].key)
  {
    if n > 0 {
      RowsUpToOrdered(groups, n - 1);
      RowsUpToItems(groups, n - 1);
      GroupRowsShape(groups, n - 1);
      OrderedStep(groups, n, RowsUpTo(groups, n - 1), GroupRows(groups, n - 1));
    }
  }

  /** Appending the rows of group n - 1 to ordered rows of earlier groups keeps them ordered. */
  lemma OrderedStep(groups: seq<IngredientGroup>, n: nat, prev: seq<Row>, last: seq<Row>)
    requires 0 < n <= |groups|
    requires forall j1, j2 :: 0 <= j1 < j2 < |prev| ==> KeyBefore(prev[j1].key, prev[j2].key)
    requires forall j :: 0 <= j < |prev| ==> RowOfItem(groups, prev[j], n - 1)
    requires forall i :: 0 <= i < |last| ==> last[i].key == (n - 1, i)
    ensures var rows := prev + last;
      forall j1, j2 :: 0 <= j1 < j2 < |rows| ==> KeyBefore(rows[j1].key, rows[j2].key)
  {
    var rows := prev + last;
    forall j1, j2 | 0 <= j1 < j2 < |rows|
      ensures KeyBefore(rows[j1].key, rows[j2].key)
    {
      if j2 < |prev| {
        assert rows[j1] == prev[j1] && rows[j2] == prev[j2];
      } else if j1 < |prev| {
        assert rows[j1] == prev[j1] && rows[j2] == last[j2 - |prev|];
        assert RowOfItem(groups, prev[j1], n - 1);
      } else {
        assert rows[j1] == last[j1 - |prev|] && rows[j2] == last[j2 - |prev|];
      }
    }
  }

  /** Item i of group g sits at position Offset(g) + i of rows. */
  predicate RowAtOffset(groups: seq<IngredientGroup>, rows: seq<Row>, g: nat, i: nat)
    requires g < |groups| && i < |groups[g].items|
  {
    Offset(groups, g) + i < |rows| && rows[Offset(groups, g) + i] == ItemRow(groups, (g, i))
  }

  /** Item i of group g sits at position Offset(g) + i. */
  lemma {:induction false} RowsUpToPositions(groups: seq<IngredientGroup>, n: nat)
    requires n <= |groups|
    ensures forall g, i :: 0 <= g < n && 0 <= i < |groups[g].items| ==> RowAtOffset(groups, RowsUpTo(groups, n), g, i)
  {
    if n > 0 {
      RowsUpToPositions(groups, n - 1);
      RowsUpToLength(groups, n - 1);
      GroupRowsShape(groups, n - 1);
      PositionsStep(groups, n, RowsUpTo(groups, n - 1), GroupRows(groups, n - 1));
    }
  }

  /** Appending the rows of group n - 1 puts each of its items at its offset
      and leaves the rows of the earlier groups where they were. */
  lemma PositionsStep(groups: seq<IngredientGroup>, n: nat, prev: seq<Row>, last: seq<Row>)
    requires 0 < n <= |groups|
    requires |prev| == Offset(groups, n - 1)
    requires forall g, i :: 0 <= g < n - 1 && 0 <= i < |groups[g].items| ==> RowAtOffset(groups, prev, g, i)
    requires |last| == |groups[n - 1].items|
    requires forall i :: 0 <= i < |last| ==> last[i] == ItemRow(groups, (n - 1, i))
    ensures forall g, i :: 0 <= g < n && 0 <= i < |groups[g].items| ==> RowAtOffset(groups, prev + last, g, i)
  {
    var rows := prev + last;
    forall g, i | 0 <= g < n && 0 <= i < |groups[g].items|
      ensures RowAtOffset(groups, rows, g, i)
    {
      if g < n - 1 {
        OffsetMonotone(groups, g, n - 1);
        assert RowAtOffset(groups, prev, g, i);
        assert rows[Offset(groups, g) + i] == prev[Offset(groups, g) + i];
      } else {
        assert rows[Offset(groups, g) + i] == last[i];
      }
    }
  }

  /** renderIngredients emits exactly one row per item: the rows are those
      of the items their keys name, in group-then-item order with no key
      repeated, and every item's row is present at its position. */
  lemma AllRowsShape(groups: seq<IngredientGroup>)
    ensures |AllRows(groups)| == Offset(groups, |groups|)
    ensures forall j :: 0 <= j < |AllRows(groups)| ==> RowOfItem(groups, AllRows(groups)[j], |groups|)
    ensures forall j1, j2 :: 0 <= j1 < j2 < |AllRows(groups)| ==> KeyBefore(AllRows(groups)[j1].key, AllRows(groups)[j2].key)
    ensures forall k: RowKey :: ValidKey(groups, k) ==> RowAtOffset(groups, AllRows(groups), k.0, k.1)
  {
    RowsUpToLength(groups, |groups|);
    RowsUpToItems(groups, |groups|);
    RowsUpToOrdered(groups, |groups|);
    RowsUpToPositions(groups, |groups|);
  }

  /** The quantity text of each row as the page holds it after rendering. */
  function InitialDisplay(groups: seq<IngredientGroup>): (d: map<RowKey, string>)
    ensures d.Keys == Keys(groups)
  {
    map k | k in Keys(groups) :: ItemRow(groups, k).quantity
  }

  // ---------------------------------------------------------------------
  // The time line
  // ---------------------------------------------------------------------

  /** `x || 0` on an optional number. */
  function OrZero(x: Option<int>): int
  {
    if x.Some? && x.value != 0 then x.value else 0
  }

  /** Total minutes: prep or 0 plus cook or 0. */
  function TotalTime(t: TimeSpec): (total: int)
    ensures total == (if t.prep.Some? then t.prep.value else 0) + (if t.cook.Some? then t.cook.value else 0)
  {
    OrZero(t.prep) + OrZero(t.cook)
  }

  /** `x || '?'` on an optional number. */
  function Label(x: Option<int>): string
  {
    if x.Some? && x.value != 0 then IntText(x.value) else "?"
  }

  /** The three spans of the meta line. */
  datatype Meta = Meta(prep: string, cook: string, total: string)

  /** The meta line, shown only when the recipe has a time record. */
  function MetaLine(time: Option<TimeSpec>): Option<Meta>
  {
    if time.None? then None
    else
      var t := time.value;
      Some(Meta("Prep: " + Label(t.prep) + " min", "Cook: " + Label(t.cook) + " min", "Total: " + IntText(TotalTime(t)) + " min"))
  }

  /** What a reader takes a label to mean: "?" counts as nothing. */
  function LabelValue(text: string): int
  {
    if text == "?" then 0
    else match ReadInt(text)
      case Some(v) => v
      case None => 0
  }

  /** The total shown is the sum of what the prep and cook labels say. */
  lemma TotalMatchesLabels(t: TimeSpec)
    ensures ReadInt(IntText(TotalTime(t))) == Some(TotalTime(t))
    ensures TotalTime(t) == LabelValue(Label(t.prep)) + LabelValue(Label(t.cook))
  {
    IntTextRoundTrip(TotalTime(t));
    LabelRoundTrip(t.prep);
    LabelRoundTrip(t.cook);
  }

  lemma LabelRoundTrip(x: Option<int>)
    ensures LabelValue(Label(x)) == OrZero(x)
  {
    if x.Some? && x.value != 0 {
      IntTextRoundTrip(x.value);
      var s := IntText(x.value);
      assert s[0] == '-' || IsDigit(s[0]);
      assert s != "?";
    }
  }

  // ---------------------------------------------------------------------
  // The lab notebook order
  // ---------------------------------------------------------------------

  predicate NewestFirst(s: seq<LogEntry>)
  {
    forall i, j :: 0 <= i < j < |s| ==> s[i].date >= s[j].date
  }

  /** Places e after every entry at least as new, so that of two entries with
      the same date the one inserted first stays first. */
  function Insert(s: seq<LogEntry>, e: LogEntry): seq<LogEntry>
  {
    if s == [] then [e]
    else if s[0].date >= e.date then [s[0]] + Insert(s[1..], e)
    else [e] + s
  }

  /** `[...recipe.log].sort((a, b) => date(b) - date(a))`: a stable sort of a
      copy, newest first. */
  function SortedLog(log: seq<LogEntry>): seq<LogEntry>
  {
    if log == [] then [] else Insert(SortedLog(log[..|log| - 1]), log[|log| - 1])
  }

  /** The entries dated d, in order. */
  function OnDate(s: seq<LogEntry>, d: int): seq<LogEntry>
  {
    if s == [] then []
    else (if s[0].date == d then [s[0]] else []) + OnDate(s[1..], d)
  }

  lemma {:induction false} OnDateConcat(a: seq<LogEntry>, b: seq<LogEntry>, d: int)
    ensures OnDate(a + b, d) == OnDate(a, d) + OnDate(b, d)
  {
    if a == [] {
      assert a + b == b;
    } else {
      assert (a + b)[0] == a[0];
      assert (a + b)[1..] == a[1..] + b;
      OnDateConcat(a[1..], b, d);
    }
  }

  lemma {:induction false} OnDateOlder(s: seq<LogEntry>, d: int)
    requires forall j :: 0 <= j < |s| ==> s[j].date < d
    ensures OnDate(s, d) == []
  {
    if s != [] {
      OnDateOlder(s[1..], d);
    }
  }

  lemma {:induction false} InsertPermutes(s: seq<LogEntry>, e: LogEntry)
    ensures multiset(Insert(s, e)) == multiset(s) + multiset{e}
  {
    if s != [] && s[0].date >= e.date {
      InsertPermutes(s[1..], e);
      ConsPermutes(s, Insert(s[1..], e), e);
    }
  }

  lemma ConsPermutes(s: seq<LogEntry>, r: seq<LogEntry>, e: LogEntry)
    requires s != [] && multiset(r) == multiset(s[1..]) + multiset{e}
    ensures multiset([s[0]] + r) == multiset(s) + multiset{e}
  {
    assert s == [s[0]] + s[1..];
  }

  lemma {:induction false} InsertSorted(s: seq<LogEntry>, e: LogEntry)
    requires NewestFirst(s)
    ensures NewestFirst(Insert(s, e))
  {
    if s == [] {
    } else if s[0].date >= e.date {
      InsertSorted(s[1..], e);
      InsertPermutes(s[1..], e);
      BoundedBy(s, Insert(s[1..], e), e);
      ConsSorted(s[0], Insert(s[1..], e));
    } else {
      ConsSorted(e, s);
    }
  }

  /** What is inserted after the newest entry is no newer than it. */
  lemma BoundedBy(s: seq<LogEntry>, r: seq<LogEntry>, e: LogEntry)
    requires s != [] && NewestFirst(s) && s[0].date >= e.date
    requires multiset(r) == multiset(s[1..]) + multiset{e}
    ensures forall j :: 0 <= j < |r| ==> s[0].date >= r[j].date
  {
    forall j | 0 <= j < |r|
      ensures s[0].date >= r[j].date
    {
      assert r[j] in multiset(r);
      if r[j] != e {
        assert r[j] in s[1..];
      }
    }
  }

  lemma ConsSorted(x: LogEntry, r: seq<LogEntry>)
    requires NewestFirst(r)
    requires forall j :: 0 <= j < |r| ==> x.date >= r[j].date
    ensures NewestFirst([x] + r)
  {
  }

  lemma {:induction false} InsertOnDate(s: seq<LogEntry>, e: LogEntry, d: int)
    requires NewestFirst(s)
    ensures OnDate(Insert(s, e), d) == OnDate(s, d) + OnDate([e], d)
  {
    if s == [] {
    } else if s[0].date >= e.date {
      InsertOnDate(s[1..], e, d);
      ConsOnDate(s, Insert(s[1..], e), e, d);
    } else {
      InsertOnDateNewest(s, e, d);
    }
  }

  lemma ConsOnDate(s: seq<LogEntry>, r: seq<LogEntry>, e: LogEntry, d: int)
    requires s != [] && OnDate(r, d) == OnDate(s[1..], d) + OnDate([e], d)
    ensures OnDate([s[0]] + r, d) == OnDate(s, d) + OnDate([e], d)
  {
    var h := if s[0].date == d then [s[0]] else [];
    OnDateCons(s[0], r, d);
    assert OnDate(s, d) == h + OnDate(s[1..], d);
    assert h + (OnDate(s[1..], d) + OnDate([e], d)) == (h + OnDate(s[1..], d)) + OnDate([e], d);
  }

  lemma OnDateCons(x: LogEntry, r: seq<LogEntry>, d: int)
    ensures OnDate([x] + r, d) == (if x.date == d then [x] else []) + OnDate(r, d)
  {
    assert ([x] + r)[1..] == r;
  }

  /** An entry newer than all others goes first, and no earlier entry shares its date. */
  lemma InsertOnDateNewest(s: seq<LogEntry>, e: LogEntry, d: int)
    requires NewestFirst(s) && s != [] && s[0].date < e.date
    ensures OnDate(Insert(s, e), d) == OnDate(s, d) + OnDate([e], d)
  {
    assert Insert(s, e) == [e] + s;
    OnDateConcat([e], s, d);
    if e.date == d {
      OnDateOlder(s, d);
    } else {
      assert OnDate([e], d) == [];
    }
  }

  /** The notebook order is newest first, holds exactly the entries of the
      log, and keeps entries of equal date in their recorded order. */
  lemma {:induction false} SortedLogProps(log: seq<LogEntry>)
    ensures NewestFirst(SortedLog(log))
    ensures multiset(SortedLog(log)) == multiset(log)
    ensures forall d :: OnDate(SortedLog(log), d) == OnDate(log, d)
  {
    if log != [] {
      var prefix := log[..|log| - 1];
      var e := log[|log| - 1];
      SortedLogProps(prefix);
      InsertSorted(SortedLog(prefix), e);
      InsertPermutes(SortedLog(prefix), e);
      assert log == prefix + [e];
      forall d
        ensures OnDate(SortedLog(log), d) == OnDate(log, d)
      {
        InsertOnDate(SortedLog(prefix), e, d);
        OnDateConcat(prefix, [e], d);
      }
    }
  }

  // ---------------------------------------------------------------------
  // The notes, deviations and lab-notebook panels
  // ---------------------------------------------------------------------

  datatype Section<T> = Section(title: string, items: seq<T>)

  /** A panel shows either a placeholder message or its sections. */
  datatype Panel<T> = Placeholder(message: string) | Sections(sections: seq<Section<T>>)

  const NO_NOTES := "No notes yet."
  const NO_DEVIATIONS := "No deviations from tradition documented."
  const NO_LOG := "No lab entries yet. Make the recipe and add your observations!"
  const NOTES_TITLE := "\U{25C6} Notes"
  const DEVIATIONS_TITLE := "\U{25C6} Deviations from Tradition"
  const SOURCE_TITLE := "\U{25C6} Source"
  const LOG_TITLE := "\U{25C6} Lab Notebook"

  /** `!list || list.length === 0` */
  predicate Missing<T>(list: Option<seq<T>>)
  {
    list.None? || |list.value| == 0
  }

  function NotesPanel(notes: Option<seq<string>>): Panel<string>
  {
    if Missing(notes) then Placeholder(NO_NOTES)
    else Sections([Section(NOTES_TITLE, notes.value)])
  }

  function DeviationsPanel(deviations: Option<seq<string>>, source: Option<string>): Panel<string>
  {
    if Missing(deviations) then Placeholder(NO_DEVIATIONS)
    else
      var main := [Section(DEVIATIONS_TITLE, deviations.value)];
      if IsTruthy(source) then Sections(main + [Section(SOURCE_TITLE, [source.value])]) else Sections(main)
  }

  function LogPanel(log: Option<seq<LogEntry>>): Panel<LogEntry>
  {
    if Missing(log) then Placeholder(NO_LOG)
    else Sections([Section(LOG_TITLE, SortedLog(log.value))])
  }

  /** Each panel falls back to its placeholder exactly when its list is
      missing or empty; otherwise every note and deviation is shown once, in
      order. */
  lemma PanelFallbacks(recipe: Recipe)
    ensures NotesPanel(recipe.notes).Placeholder? <==> Missing(recipe.notes)
    ensures NotesPanel(recipe.notes).Placeholder? ==> NotesPanel(recipe.notes).message == NO_NOTES
    ensures !Missing(recipe.notes) ==> NotesPanel(recipe.notes).sections[0].items == recipe.notes.value
    ensures DeviationsPanel(recipe.deviations, recipe.source).Placeholder? <==> Missing(recipe.deviations)
    ensures DeviationsPanel(recipe.deviations, recipe.source).Placeholder? ==>
      DeviationsPanel(recipe.deviations, recipe.source).message == NO_DEVIATIONS
    ensures !Missing(recipe.deviations) ==> DeviationsPanel(recipe.deviations, recipe.source).sections[0].items == recipe.deviations.value
    ensures LogPanel(recipe.log).Placeholder? <==> Missing(recipe.log)
    ensures LogPanel(recipe.log).Placeholder? ==> LogPanel(recipe.log).message == NO_LOG
  {
  }

  /** The source is shown only beside a non-empty list of deviations, and
      then exactly when it is truthy. */
  lemma SourceSection(deviations: Option<seq<string>>, source: Option<string>)
    ensures var p := DeviationsPanel(deviations, source);
      (p.Sections? && |p.sections| == 2) <==> (!Missing(deviations) && IsTruthy(source))
    ensures var p := DeviationsPanel(deviations, source);
      p.Sections? && |p.sections| == 2 ==> p.sections[1] == Section(SOURCE_TITLE, [source.value])
  {
  }

  /** A non-empty log shows one section holding its entries newest first,
      every entry exactly once, equal dates in recorded order. */
  lemma LogPanelOrder(log: Option<seq<LogEntry>>)
    requires !Missing(log)
    ensures var p := LogPanel(log);
      && p.Sections? && |p.sections| == 1 && p.sections[0].title == LOG_TITLE
      && NewestFirst(p.sections[0].items)
      && multiset(p.sections[0].items) == multiset(log.value)
      && forall d :: OnDate(p.sections[0].items, d) == OnDate(log.value, d)
  {
    SortedLogProps(log.value);
  }
}
