/**
 The SoundExchange report (lib/export_soundex.cpp): rows of plays, ordered by cart number, are
 rolled up into one line for every cart, with its number of plays.
 */
module SoundExchange {
  import opened Options

  /** A row of the query; a column may be null. */
  datatype Row = Row(
    cart: nat,
    artist: Option<string>,
    title: Option<string>,
    isrc: Option<string>,
    album: Option<string>,
    imprint: Option<string>)

  datatype Metadata = Metadata(artist: string, title: string, isrc: string, album: string, imprint: string)

  datatype Line = Line(cart: nat, metadata: Metadata, plays: nat)

  /** A line as the report shows it: the cart number itself is not written. */
  datatype Entry = Entry(
    serviceName: string, transCategory: string, metadata: Metadata, ath: string, channelName: string, plays: nat)

  datatype Station = Station(serviceName: string, transCategory: string, ath: string, channelName: string)

  function Shown(station: Station, line: Line): Entry {
    Entry(station.serviceName, station.transCategory, line.metadata, station.ath, station.channelName, line.plays)
  }

  function Report(station: Station, lines: seq<Line>): seq<Entry> {
    seq(|lines|, i requires 0 <= i < |lines| => Shown(station, lines[i]))
  }

  function Text(column: Option<string>): string {
    if column.Some? then column.value else ""
  }

  function MetadataOf(row: Row): Metadata {
    Metadata(Text(row.artist), Text(row.title), Text(row.isrc), Text(row.album), Text(row.imprint))
  }

  /** A row further on: it adds to the line of the row before, or starts a line of its own. */
  function Rolled(lines: seq<Line>, before: nat, row: Row): seq<Line> {
    if row.cart == 0 then lines
    else if row.cart == before && lines != [] then
      var last := lines[|lines| - 1];
      lines[..|lines| - 1] + [last.(plays := last.plays + 1)]
    else lines + [Line(row.cart, MetadataOf(row), 1)]
  }

  function LastCart(rows: seq<Row>): nat {
    if rows == [] then 0 else rows[|rows| - 1].cart
  }

  function RollUp(rows: seq<Row>): seq<Line> {
    if rows == [] then []
    else
      var before := rows[..|rows| - 1];
      Rolled(RollUp(before), LastCart(before), rows[|rows| - 1])
  }

  // ---------------------------------------------------------------- what the lines say

  predicate Sorted(rows: seq<Row>) {
    forall i, j :: 0 <= i < j < |rows| ==> rows[i].cart <= rows[j].cart
  }

  /** Row `j`, of another cart, comes between rows `i` and `k` of one. */
  predicate Parts(rows: seq<Row>, i: int, j: int, k: int) {
    0 <= i < j < k < |rows| && rows[i].cart == rows[k].cart != 0 && rows[j].cart != rows[i].cart
  }

  /** The rows of each cart are together. */
  ghost predicate Together(rows: seq<Row>) {
    forall i, j, k :: !Parts(rows, i, j, k)
  }

  /** How many of the rows are of a cart. */
  function Plays(rows: seq<Row>, cart: nat): nat {
    if rows == [] then 0
    else Plays(rows[..|rows| - 1], cart) + if rows[|rows| - 1].cart == cart then 1 else 0
  }

  /** The rows that are of some cart. */
  function Played(rows: seq<Row>): nat {
    if rows == [] then 0
    else Played(rows[..|rows| - 1]) + if rows[|rows| - 1].cart != 0 then 1 else 0
  }

  function TotalPlays(lines: seq<Line>): nat {
    if lines == [] then 0 else TotalPlays(lines[..|lines| - 1]) + lines[|lines| - 1].plays
  }

  predicate Lists(lines: seq<Line>, cart: nat) { exists l :: 0 <= l < |lines| && lines[l].cart == cart }

  predicate Occurs(rows: seq<Row>, cart: nat) { exists i :: 0 <= i < |rows| && rows[i].cart == cart }

  predicate Increasing(lines: seq<Line>) {
    forall k, l :: 0 <= k < l < |lines| ==> lines[k].cart < lines[l].cart
  }

  predicate Distinct(lines: seq<Line>) {
    forall k, l :: 0 <= k < l < |lines| ==> lines[k].cart != lines[l].cart
  }

  /** Row `i` is the first one of its cart. */
  predicate First(rows: seq<Row>, i: int) {
    0 <= i < |rows| && forall j :: 0 <= j < i ==> rows[j].cart != rows[i].cart
  }

  /** A line tells of its cart how often it was played, and what its first row says. */
  predicate Tells(rows: seq<Row>, line: Line) {
    && line.plays == Plays(rows, line.cart)
    && exists i ::
         0 <= i < |rows| && First(rows, i) && rows[i].cart == line.cart && line.metadata == MetadataOf(rows[i])
  }

  predicate AllTell(rows: seq<Row>, lines: seq<Line>) { forall l :: 0 <= l < |lines| ==> Tells(rows, lines[l]) }

  lemma {:induction false} LastLine(rows: seq<Row>)
    requires LastCart(rows) != 0
    ensures RollUp(rows) != [] && RollUp(rows)[|RollUp(rows)| - 1].cart == LastCart(rows)
  {
    var before := rows[..|rows| - 1];
    if LastCart(before) == LastCart(rows) {
      LastLine(before);
    }
  }

  lemma {:induction false} TotalNext(lines: seq<Line>, line: Line)
    ensures TotalPlays(lines + [line]) == TotalPlays(lines) + line.plays
  {
    assert (lines + [line])[..|lines|] == lines;
  }

  /** No play is lost or counted twice, in whatever order the rows are. */
  lemma {:induction false} PlaysAddUp(rows: seq<Row>)
    ensures TotalPlays(RollUp(rows)) == Played(rows)
  {
    if rows != [] {
      var before, row := rows[..|rows| - 1], rows[|rows| - 1];
      PlaysAddUp(before);
      var lines := RollUp(before);
      if row.cart != 0 {
        if row.cart == LastCart(before) {
          LastLine(before);
          var last := lines[|lines| - 1];
          TotalNext(lines[..|lines| - 1], last.(plays := last.plays + 1));
        } else {
          TotalNext(lines, Line(row.cart, MetadataOf(row), 1));
        }
      }
    }
  }

  lemma {:induction false} OccursNext(rows: seq<Row>, cart: nat)
    requires rows != []
    ensures Occurs(rows, cart) <==> Occurs(rows[..|rows| - 1], cart) || rows[|rows| - 1].cart == cart
  {
    if Occurs(rows[..|rows| - 1], cart) {
      var i :| 0 <= i < |rows| - 1 && rows[..|rows| - 1][i].cart == cart;
      assert rows[i].cart == cart;
    }
    if Occurs(rows, cart) && rows[|rows| - 1].cart != cart {
      var i :| 0 <= i < |rows| && rows[i].cart == cart;
      assert rows[..|rows| - 1][i].cart == cart;
    }
  }

  lemma {:induction false} RolledLists(lines: seq<Line>, before: nat, row: Row, cart: nat)
    requires before != 0 ==> lines != [] && lines[|lines| - 1].cart == before
    ensures Lists(Rolled(lines, before, row), cart) <==> Lists(lines, cart) || (row.cart == cart != 0)
  {
    var lines' := Rolled(lines, before, row);
    forall l | 0 <= l < |lines|
      ensures l < |lines'| && lines'[l].cart == lines[l].cart
    {
    }
    if Lists(lines, cart) {
      var l :| 0 <= l < |lines| && lines[l].cart == cart;
      assert lines'[l].cart == cart;
    }
    if row.cart == cart != 0 {
      assert lines'[|lines'| - 1].cart == cart;
    }
  }

  /** Every cart but number zero that has a row has a line, and no other. */
  lemma {:induction false} ListsExactlyTheCarts(rows: seq<Row>, cart: nat)
    ensures Lists(RollUp(rows), cart) <==> cart != 0 && Occurs(rows, cart)
  {
    if rows != [] {
      var before := rows[..|rows| - 1];
      ListsExactlyTheCarts(before, cart);
      OccursNext(rows, cart);
      if LastCart(before) != 0 {
        LastLine(before);
      }
      RolledLists(RollUp(before), LastCart(before), rows[|rows| - 1], cart);
    }
  }

  lemma {:induction false} NoPlays(rows: seq<Row>, cart: nat)
    ensures Plays(rows, cart) == 0 <==> !Occurs(rows, cart)
  {
    if rows != [] {
      OccursNext(rows, cart);
      NoPlays(rows[..|rows| - 1], cart);
    }
  }

  lemma {:induction false} FirstStays(rows: seq<Row>, i: int)
    requires rows != [] && First(rows[..|rows| - 1], i)
    ensures First(rows, i)
  {
    forall j | 0 <= j < i
      ensures rows[j].cart != rows[i].cart
    {
      assert rows[..|rows| - 1][j].cart != rows[..|rows| - 1][i].cart;
    }
  }

  lemma {:induction false} TellsOn(rows: seq<Row>, line: Line)
    requires rows != [] && Tells(rows[..|rows| - 1], line)
    ensures Tells(rows, if rows[|rows| - 1].cart == line.cart then line.(plays := line.plays + 1) else line)
  {
    var before := rows[..|rows| - 1];
    var i :| First(before, i) && before[i].cart == line.cart && line.metadata == MetadataOf(before[i]);
    FirstStays(rows, i);
    assert rows[i].cart == line.cart;
  }

  /** A cart whose row follows a row of another cart is new, when carts' rows are together. */
  lemma {:induction false} StartsAnew(rows: seq<Row>)
    requires rows != [] && Together(rows)
    requires LastCart(rows) != 0 && LastCart(rows[..|rows| - 1]) != LastCart(rows)
    ensures !Occurs(rows[..|rows| - 1], LastCart(rows))
  {
    var n := |rows| - 1;
    forall i | 0 <= i < n
      ensures rows[..n][i].cart != LastCart(rows)
    {
      assert !Parts(rows, i, n - 1, n);
    }
  }

  lemma {:induction false} TogetherBefore(rows: seq<Row>)
    requires rows != [] && Together(rows)
    ensures Together(rows[..|rows| - 1])
  {
    var before := rows[..|rows| - 1];
    forall i, j, k
      ensures !Parts(before, i, j, k)
    {
      assert !Parts(rows, i, j, k);
    }
  }

  /** With each cart's rows together, there is one line for every cart, which tells its number of
      plays and the metadata of its first row. */
  lemma {:induction false} EveryLineTells(rows: seq<Row>)
    requires Together(rows)
    ensures Distinct(RollUp(rows))
    ensures AllTell(rows, RollUp(rows))
  {
    if rows != [] {
      var before, row := rows[..|rows| - 1], rows[|rows| - 1];
      TogetherBefore(rows);
      EveryLineTells(before);
      var lines, lines' := RollUp(before), RollUp(rows);
      if row.cart == 0 {
        forall l | 0 <= l < |lines|
          ensures Tells(rows, lines[l])
        {
          ListsExactlyTheCarts(before, lines[l].cart);
          assert Lists(lines, lines[l].cart);
          TellsOn(rows, lines[l]);
        }
      } else if row.cart == LastCart(before) {
        JoinsLine(rows);
      } else {
        StartsLine(rows);
      }
    }
  }

  lemma {:induction false} JoinsLine(rows: seq<Row>)
    requires rows != [] && LastCart(rows) == LastCart(rows[..|rows| - 1]) != 0
    requires Distinct(RollUp(rows[..|rows| - 1]))
    requires AllTell(rows[..|rows| - 1], RollUp(rows[..|rows| - 1]))
    ensures Distinct(RollUp(rows)) && AllTell(rows, RollUp(rows))
  {
    var before := rows[..|rows| - 1];
    var lines, lines' := RollUp(before), RollUp(rows);
    LastLine(before);
    forall l | 0 <= l < |lines'|
      ensures lines'[l].cart == lines[l].cart && Tells(rows, lines'[l])
    {
      TellsOn(rows, lines[l]);
    }
  }

  lemma {:induction false} StartsLine(rows: seq<Row>)
    requires rows != [] && Together(rows) && LastCart(rows) != 0 && LastCart(rows[..|rows| - 1]) != LastCart(rows)
    requires Distinct(RollUp(rows[..|rows| - 1]))
    requires AllTell(rows[..|rows| - 1], RollUp(rows[..|rows| - 1]))
    ensures Distinct(RollUp(rows)) && AllTell(rows, RollUp(rows))
  {
    var before, row := rows[..|rows| - 1], rows[|rows| - 1];
    var lines, lines' := RollUp(before), RollUp(rows);
    StartsAnew(rows);
    ListsExactlyTheCarts(before, row.cart);
    NoPlays(before, row.cart);
    assert lines' == lines + [Line(row.cart, MetadataOf(row), 1)];
    forall j | 0 <= j < |rows| - 1
      ensures rows[j].cart != row.cart
    {
      assert before[j].cart == rows[j].cart;
    }
    assert First(rows, |rows| - 1);
    forall l | 0 <= l < |lines|
      ensures lines[l].cart != row.cart && Tells(rows, lines[l])
    {
      TellsOn(rows, lines[l]);
    }
  }

  /** One line for every cart is what the report has exactly when the rows of each cart are
      together: a cart that comes back after another gets a second line. */
  lemma {:induction false} OneLineEachExactly(rows: seq<Row>)
    ensures Distinct(RollUp(rows)) <==> Together(rows)
  {
    if Together(rows) {
      EveryLineTells(rows);
    } else {
      var before := rows[..|rows| - 1];
      OneLineEachExactly(before);
      if !Together(before) {
        KeepsDouble(rows);
      } else {
        ComesBack(rows);
      }
    }
  }

  lemma {:induction false} KeepsDouble(rows: seq<Row>)
    requires rows != [] && !Distinct(RollUp(rows[..|rows| - 1]))
    ensures !Distinct(RollUp(rows))
  {
    var lines, lines' := RollUp(rows[..|rows| - 1]), RollUp(rows);
    var k, l :| 0 <= k < l < |lines| && lines[k].cart == lines[l].cart;
    assert lines'[k].cart == lines[k].cart && lines'[l].cart == lines[l].cart;
  }

  lemma {:induction false} OnlyAgain(rows: seq<Row>)
    requires rows != [] && !Together(rows) && Together(rows[..|rows| - 1])
    ensures LastCart(rows) != 0 && Occurs(rows[..|rows| - 1], LastCart(rows))
    ensures LastCart(rows[..|rows| - 1]) != LastCart(rows)
  {
    var before := rows[..|rows| - 1];
    var i, j, k :| Parts(rows, i, j, k);
    assert before[i] == rows[i] && before[j] == rows[j];
    if Parts(before, i, j, k) {
      assert false;
    }
    assert before[i].cart == LastCart(rows);
    if Parts(before, i, j, |before| - 1) {
      assert false;
    }
  }

  lemma {:induction false} ComesBack(rows: seq<Row>)
    requires rows != [] && !Together(rows) && Together(rows[..|rows| - 1])
    ensures !Distinct(RollUp(rows))
  {
    var before, row := rows[..|rows| - 1], rows[|rows| - 1];
    OnlyAgain(rows);
    ListsExactlyTheCarts(before, row.cart);
    var lines, lines' := RollUp(before), RollUp(rows);
    var l :| 0 <= l < |lines| && lines[l].cart == row.cart;
    assert lines'[|lines|].cart == row.cart && lines'[l].cart == row.cart;
  }

  lemma {:induction false} SortedTogether(rows: seq<Row>)
    requires Sorted(rows)
    ensures Together(rows)
  {
    forall i, j, k | 0 <= i < j < k < |rows| && rows[i].cart == rows[k].cart != 0
      ensures rows[j].cart == rows[i].cart
    {
      assert rows[i].cart <= rows[j].cart <= rows[k].cart;
    }
  }

  /** Of rows in order of cart number, as the query returns them, the report has exactly one
      line for every cart but number zero, in order, with its plays and first metadata, and the
      plays add up. */
  lemma {:induction false} SortedReport(rows: seq<Row>)
    requires Sorted(rows)
    ensures Increasing(RollUp(rows))
    ensures forall cart: nat :: Lists(RollUp(rows), cart) <==> cart != 0 && Occurs(rows, cart)
    ensures AllTell(rows, RollUp(rows))
    ensures TotalPlays(RollUp(rows)) == Played(rows)
  {
    SortedTogether(rows);
    EveryLineTells(rows);
    PlaysAddUp(rows);
    forall cart: nat
      ensures Lists(RollUp(rows), cart) <==> cart != 0 && Occurs(rows, cart)
    {
      ListsExactlyTheCarts(rows, cart);
    }
    SortedIncreasing(rows);
  }

  /** The lines' carts go up, and not beyond `last`. */
  predicate GoUpTo(lines: seq<Line>, last: nat) {
    Increasing(lines) && forall l :: 0 <= l < |lines| ==> lines[l].cart <= last
  }

  lemma {:induction false} RolledGoesUp(lines: seq<Line>, before: nat, row: Row)
    requires GoUpTo(lines, before) && before <= row.cart
    requires before != 0 ==> lines != [] && lines[|lines| - 1].cart == before
    ensures GoUpTo(Rolled(lines, before, row), row.cart)
  {
    if row.cart == before && lines != [] {
      var lines' := Rolled(lines, before, row);
      assert forall l :: 0 <= l < |lines| ==> lines'[l].cart == lines[l].cart;
    }
  }

  lemma {:induction false} SortedIncreasing(rows: seq<Row>)
    requires Sorted(rows)
    ensures GoUpTo(RollUp(rows), LastCart(rows))
  {
    if rows != [] {
      var before := rows[..|rows| - 1];
      SortedIncreasing(before);
      if LastCart(before) != 0 {
        LastLine(before);
      }
      RolledGoesUp(RollUp(before), LastCart(before), rows[|rows| - 1]);
    }
  }

  // ---------------------------------------------------------------- the report

  lemma {:induction false} RollUpFurther(rows: seq<Row>, k: nat)
    requires k < |rows|
    ensures RollUp(rows[..k + 1]) == Rolled(RollUp(rows[..k]), LastCart(rows[..k]), rows[k])
    ensures LastCart(rows[..k + 1]) == rows[k].cart
  {
    assert rows[..k + 1][..k] == rows[..k];
  }

  /** The lines written and the one being counted. */
  function Pending(lines: seq<Line>, cart: nat, metadata: Metadata, plays: nat): seq<Line> {
    if cart == 0 then lines else lines + [Line(cart, metadata, plays)]
  }

  lemma {:induction false} PendingRolls(lines: seq<Line>, cart: nat, metadata: Metadata, plays: nat, row: Row)
    ensures Rolled(Pending(lines, cart, metadata, plays), cart, row) ==
            if row.cart == cart then Pending(lines, cart, metadata, plays + 1)
            else Pending(Pending(lines, cart, metadata, plays), row.cart, MetadataOf(row), 1)
  {
    if row.cart == cart != 0 {
      var all := Pending(lines, cart, metadata, plays);
      assert all[..|all| - 1] == lines;
    }
  }

  lemma {:induction false} ReportFurther(station: Station, lines: seq<Line>, line: Line)
    ensures Report(station, lines + [line]) == Report(station, lines) + [Shown(station, line)]
  {
  }

  // ---------------------------------------------------------------- column by column

  /** What a column shows: nothing if it is null. */
  ghost predicate ShowsColumn(shown: string, column: Option<string>) {
    match column
    case None => |shown| == 0
    case Some(text) => shown == text
  }

  /** An entry of a station's report on a cart whose first row is row `i`. */
  ghost predicate Columned(entry: Entry, station: Station, rows: seq<Row>, cart: nat, i: int) {
    && 0 <= i < |rows| && rows[i].cart == cart && (forall j :: 0 <= j < i ==> rows[j].cart != cart)
    && entry.serviceName == station.serviceName && entry.transCategory == station.transCategory
    && ShowsColumn(entry.metadata.artist, rows[i].artist) && ShowsColumn(entry.metadata.title, rows[i].title)
    && ShowsColumn(entry.metadata.isrc, rows[i].isrc) && ShowsColumn(entry.metadata.album, rows[i].album)
    && ShowsColumn(entry.metadata.imprint, rows[i].imprint)
    && entry.ath == station.ath && entry.channelName == station.channelName
    && entry.plays == |RowsOf(rows, cart)|
  }

  ghost predicate InColumns(entry: Entry, station: Station, rows: seq<Row>, cart: nat) {
    exists i :: Columned(entry, station, rows, cart, i)
  }

  /** One entry for each of these carts, which are those that have rows, except number zero. */
  ghost predicate ReportsOn(report: seq<Entry>, station: Station, rows: seq<Row>, carts: seq<nat>) {
    && |carts| == |report|
    && (forall k, l :: 0 <= k < l < |carts| ==> carts[k] != carts[l])
    && (forall cart: nat :: cart in carts <==> cart != 0 && exists i :: 0 <= i < |rows| && rows[i].cart == cart)
    && forall l :: 0 <= l < |carts| ==> InColumns(report[l], station, rows, carts[l])
  }

  ghost function RowsOf(rows: seq<Row>, cart: nat): set<int> { set k | 0 <= k < |rows| && rows[k].cart == cart }

  lemma {:induction false} RowsOfNext(rows: seq<Row>, cart: nat)
    requires rows != []
    ensures var n := |rows| - 1;
            && n !in RowsOf(rows[..n], cart)
            && RowsOf(rows, cart) == RowsOf(rows[..n], cart) + if rows[n].cart == cart then {n} else {}
  {
  }

  lemma {:induction false} PlaysAreRows(rows: seq<Row>, cart: nat)
    ensures Plays(rows, cart) == |RowsOf(rows, cart)|
  {
    if rows != [] {
      PlaysAreRows(rows[..|rows| - 1], cart);
      RowsOfNext(rows, cart);
    }
  }

  function Carts(lines: seq<Line>): (carts: seq<nat>)
    ensures |carts| == |lines| && forall l :: 0 <= l < |lines| ==> carts[l] == lines[l].cart
  {
    seq(|lines|, l requires 0 <= l < |lines| => lines[l].cart)
  }

  lemma {:induction false} ColumnShown(column: Option<string>)
    ensures ShowsColumn(Text(column), column)
  {
  }

  lemma {:induction false} LineColumned(station: Station, rows: seq<Row>, line: Line) returns (i: int)
    requires Tells(rows, line)
    ensures Columned(Shown(station, line), station, rows, line.cart, i)
  {
    i :| 0 <= i < |rows| && First(rows, i) && rows[i].cart == line.cart && line.metadata == MetadataOf(rows[i]);
    PlaysAreRows(rows, line.cart);
    ColumnShown(rows[i].artist);
    ColumnShown(rows[i].title);
    ColumnShown(rows[i].isrc);
    ColumnShown(rows[i].album);
    ColumnShown(rows[i].imprint);
  }

  /** The report in columns: with each cart's rows together, one entry for each cart, with what its
      first row says in the column of that name; in order of number, if the rows are. */
  lemma {:induction false} ReportColumns(station: Station, rows: seq<Row>) returns (carts: seq<nat>)
    requires Together(rows)
    ensures ReportsOn(Report(station, RollUp(rows)), station, rows, carts)
    ensures Sorted(rows) ==> forall k, l :: 0 <= k < l < |carts| ==> carts[k] < carts[l]
  {
    var lines := RollUp(rows);
    carts := Carts(lines);
    EveryLineTells(rows);
    forall cart: nat
      ensures cart in carts <==> cart != 0 && exists i :: 0 <= i < |rows| && rows[i].cart == cart
    {
      ListsExactlyTheCarts(rows, cart);
      if Lists(lines, cart) {
        var l :| 0 <= l < |lines| && lines[l].cart == cart;
        assert carts[l] == cart;
      }
    }
    forall l | 0 <= l < |lines|
      ensures InColumns(Report(station, lines)[l], station, rows, carts[l])
    {
      assert Tells(rows, lines[l]);
      var i := LineColumned(station, rows, lines[l]);
    }
    if Sorted(rows) {
      SortedIncreasing(rows);
    }
  }

  /** The report has an entry in columns for every cart. */
  ghost predicate AllInColumns(report: seq<Entry>, station: Station, rows: seq<Row>) {
    exists carts :: ReportsOn(report, station, rows, carts)
  }

  lemma {:induction false} ReportedInColumns(station: Station, rows: seq<Row>)
    ensures Together(rows) ==> AllInColumns(Report(station, RollUp(rows)), station, rows)
  {
    if Together(rows) {
      var carts := ReportColumns(station, rows);
    }
  }

  method Columns(row: Row) returns (artist: string, title: string, isrc: string, album: string, imprint: string)
    ensures Metadata(artist, title, isrc, album, imprint) == MetadataOf(row)
  {
    if row.artist.None? { artist := ""; } else { artist := row.artist.value; }
    title := Text(row.title);
    if row.isrc.None? { isrc := ""; } else { isrc := row.isrc.value; }
    if row.album.None? { album := ""; } else { album := row.album.value; }
    if row.imprint.None? { imprint := ""; } else { imprint := row.imprint.value; }
  }

  method ExportSoundEx(station: Station, rows: seq<Row>) returns (report: seq<Entry>)
    ensures report == Report(station, RollUp(rows))
    ensures Together(rows) ==> AllInColumns(report, station, rows)
  {
    report := [];
    var cartnum: nat, plays: nat := 0, 0;
    var artist, title, isrc, album, imprint := "", "", "", "", "";
    ghost var lines: seq<Line> := [];
    var k := 0;
    while k < |rows|
      invariant 0 <= k <= |rows| && cartnum == LastCart(rows[..k])
      invariant report == Report(station, lines)
      invariant RollUp(rows[..k]) == Pending(lines, cartnum, Metadata(artist, title, isrc, album, imprint), plays)
    {
      ghost var metadata := Metadata(artist, title, isrc, album, imprint);
      RollUpFurther(rows, k);
      PendingRolls(lines, cartnum, metadata, plays, rows[k]);
      if rows[k].cart == cartnum {
        plays := plays + 1;
      } else {
        if cartnum != 0 {
          ReportFurther(station, lines, Line(cartnum, metadata, plays));
          report := report + [Shown(station, Line(cartnum, Metadata(artist, title, isrc, album, imprint), plays))];
        }
        lines := Pending(lines, cartnum, metadata, plays);
        plays := 1;
        artist, title, isrc, album, imprint := Columns(rows[k]);
      }
      cartnum := rows[k].cart;
      k := k + 1;
    }
    assert rows[..|rows|] == rows;
    if cartnum != 0 {
      ReportFurther(station, lines, Line(cartnum, Metadata(artist, title, isrc, album, imprint), plays));
      report := report + [Shown(station, Line(cartnum, Metadata(artist, title, isrc, album, imprint), plays))];
    }
    ReportedInColumns(station, rows);
  }
}
