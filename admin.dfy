/**
 * The admin panel: the CSV text of the export, the "reset all votes" action,
 * the create-party form and its button, and the labels of the symbol picker.
 */
module Admin {
  import opened Parties
  import opened Text
  import opened Wrappers

  // ---------------------------------------------------------------------------
  // CSV export

  /**
   * The percentage's hundredths, `votes * 10000 / total` rounded to the
   * nearest integer with ties going up, as `toFixed(2)` rounds (taken here on
   * the exact quotient). `m` is the magnitude of the count.
   */
  function RoundedHundredths(m: nat, total: int): (k: nat)
    requires total > 0
    ensures 2 * total * k <= 20000 * m + total < 2 * total * (k + 1)
  {
    var k := (20000 * m + total) / (2 * total);
    assert 2 * total * k <= 20000 * m + total < 2 * total * (k + 1) by {
      var q := 2 * total;
      var n := 20000 * m + total;
      assert n == q * (n / q) + n % q && 0 <= n % q < q;
    }
    k
  }

  predicate IsPercentChar(c: char)
  {
    IsDigit(c) || c == '.' || c == '-'
  }

  /** A text `d…d.dd`: at least one digit, a point, then exactly two digits. */
  predicate IsFixedTwo(u: string)
  {
    |u| >= 4 && u[|u| - 3] == '.' && AllDigits(u[..|u| - 3]) && AllDigits(u[|u| - 2..])
  }

  /** The number of hundredths a `d…d.dd` text spells: its digits read without the point. */
  function Hundredths(u: string): nat
    requires IsFixedTwo(u)
  {
    DigitsValue(u[..|u| - 3] + u[|u| - 2..])
  }

  /** Reads a `toFixed(2)` text back as a signed number of hundredths. */
  function ReadHundredths(s: string): Option<int>
  {
    if |s| >= 1 && s[0] == '-' && IsFixedTwo(s[1..]) then Some(-(Hundredths(s[1..]) as int))
    else if IsFixedTwo(s) then Some(Hundredths(s))
    else None
  }

  /** A whole part, a point and two digits spell `100 * whole + 10 * d1 + d2` hundredths. */
  lemma FixedTwoShape(whole: string, d1: char, d2: char)
    requires |whole| >= 1 && AllDigits(whole) && IsDigit(d1) && IsDigit(d2)
    ensures IsFixedTwo(whole + "." + [d1, d2])
    ensures var s := whole + "." + [d1, d2]; s[..|s| - 3] + s[|s| - 2..] == whole + [d1] + [d2]
  {
    var s := whole + "." + [d1, d2];
    assert s[..|s| - 3] == whole;
    assert s[|s| - 2..] == [d1, d2];
  }

  lemma FixedTwoSpells(whole: string, d1: char, d2: char)
    requires |whole| >= 1 && AllDigits(whole) && IsDigit(d1) && IsDigit(d2)
    ensures IsFixedTwo(whole + "." + [d1, d2])
    ensures Hundredths(whole + "." + [d1, d2])
      == 100 * DigitsValue(whole) + 10 * (d1 as int - '0' as int) + (d2 as int - '0' as int)
  {
    FixedTwoShape(whole, d1, d2);
    DigitsValuePush(whole, d1);
    DigitsValuePush(whole + [d1], d2);
    var w := DigitsValue(whole);
    var v := DigitsValue(whole + [d1]);
    assert v == 10 * w + (d1 as int - '0' as int);
    assert DigitsValue(whole + [d1] + [d2]) == 10 * v + (d2 as int - '0' as int);
  }

  /**
   * A number of hundredths written with two decimals, as `toFixed(2)` writes
   * it: the text spells `k` back, and the whole part has no leading zero.
   */
  function FixedTwo(k: nat): (s: string)
    ensures IsFixedTwo(s) && Hundredths(s) == k
    ensures s[0] == '0' ==> s[1] == '.'
    ensures forall i :: 0 <= i < |s| ==> IsPercentChar(s[i])
  {
    var whole := NatToString(k / 100);
    NatToStringValue(k / 100);
    FixedTwoSpells(whole, DigitChar((k % 100) / 10), DigitChar(k % 10));
    whole + "." + [DigitChar((k % 100) / 10), DigitChar(k % 10)]
  }

  /**
   * The percentage field before its `%`: the number 0 when the total is not
   * positive; otherwise the count's share of the total with two decimals,
   * which reads back as the rounded hundredths, with a minus sign exactly
   * when the count is negative (`toFixed` keeps the sign of a negative value
   * that rounds to zero).
   */
  function PercentText(votes: int, total: int): (s: string)
    ensures total <= 0 ==> s == "0"
    ensures total > 0 ==> |s| >= 4 && s[|s| - 3] == '.'
    ensures total > 0 ==> ((s[0] == '-') <==> votes < 0)
    ensures total > 0 ==> var u := if votes < 0 then s[1..] else s; u[0] == '0' ==> u[1] == '.'
    ensures total > 0 && votes >= 0 ==> ReadHundredths(s) == Some(RoundedHundredths(votes, total) as int)
    ensures total > 0 && votes < 0 ==> ReadHundredths(s) == Some(-(RoundedHundredths(-votes, total) as int))
    ensures forall i :: 0 <= i < |s| ==> IsPercentChar(s[i])
  {
    if total <= 0 then "0"
    else if votes < 0 then
      var f := FixedTwo(RoundedHundredths(-votes, total));
      assert ("-" + f)[1..] == f;
      "-" + f
    else FixedTwo(RoundedHundredths(votes, total))
  }

  const HeaderFields: seq<string> := ["Partido", "Símbolo", "Votos", "Porcentaje"]

  /** The fields of one party's line: name, symbol, count and percentage, in that order. */
  function RowFields(p: Party, total: int): seq<string>
  {
    [p.name, p.symbol, IntToString(p.votes), PercentText(p.votes, total) + "%"]
  }

  const TotalLabel := "Total de Votos"

  /** The closing line, a template string `Total de Votos,,,${totalVotes}`. */
  function TotalLine(total: int): string
  {
    TotalLabel + ",,," + IntToString(total)
  }

  /** One party's line: its fields joined by commas. */
  function RowLine(p: Party, total: int): string
  {
    Join(RowFields(p, total), ',')
  }

  /** The party lines, in list order, each percentage taken of `total`. */
  function RowLines(ps: seq<Party>, total: int): seq<string>
  {
    seq(|ps|, i requires 0 <= i < |ps| => RowLine(ps[i], total))
  }

  /** The lines of the export: header, one line per party, an empty line, the total line. */
  function CsvLines(ps: seq<Party>): seq<string>
  {
    var total := TotalVotes(ps);
    [Join(HeaderFields, ',')] + RowLines(ps, total) + ["", TotalLine(total)]
  }

  /** `exportToCSV`'s text: the lines joined with a line feed, with no quoting of any field. */
  function ExportCsv(ps: seq<Party>): string
  {
    Join(CsvLines(ps), '\n')
  }

  /** No party's name or symbol contains `c`. */
  predicate TextFieldsAvoid(ps: seq<Party>, c: char)
  {
    forall i :: 0 <= i < |ps| ==> c !in ps[i].name && c !in ps[i].symbol
  }

  lemma HeaderLine()
    ensures Join(HeaderFields, ',') == "Partido,Símbolo,Votos,Porcentaje"
  {
    assert HeaderFields[1..][1..][1..] == ["Porcentaje"];
  }

  /**
   * The total line has the header's four columns: the label, two empty
   * fields, and the total, which reads back exactly.
   */
  lemma TotalLineColumns(total: int)
    ensures '\n' !in TotalLine(total)
    ensures Split(TotalLine(total), ',') == [TotalLabel, "", "", IntToString(total)]
    ensures ParseDecimal(Split(TotalLine(total), ',')[3]) == Some(total)
  {
    var n := IntToString(total);
    assert ',' !in n && '\n' !in n;
    assert ',' !in TotalLabel;
    assert ",,," == [','] + [','] + [','];
    assert TotalLine(total) == TotalLabel + [','] + ("" + [','] + ("" + [','] + n));
    SplitAtFirstSeparator("", n, ',');
    SplitWithoutSeparator(n, ',');
    SplitAtFirstSeparator("", "" + [','] + n, ',');
    SplitAtFirstSeparator(TotalLabel, "" + [','] + ("" + [','] + n), ',');
    IntToStringRoundTrip(total);
  }

  lemma RowAvoids(p: Party, total: int, c: char)
    requires c != ',' && !IsPercentChar(c) && c != '%'
    requires c !in p.name && c !in p.symbol
    ensures c !in RowLine(p, total)
  {
    var f := RowFields(p, total);
    assert c !in f[2];
    assert c !in f[3];
    assert NoneHolds(f, c);
    JoinAvoids(f, ',', c);
  }

  lemma RowLinesAvoid(ps: seq<Party>, total: int, c: char)
    requires c != ',' && !IsPercentChar(c) && c != '%'
    requires TextFieldsAvoid(ps, c)
    ensures NoneHolds(RowLines(ps, total), c)
  {
    var rows := RowLines(ps, total);
    forall i | 0 <= i < |rows|
      ensures c !in rows[i]
    {
      RowAvoids(ps[i], total, c);
    }
  }

  /** No line of the export holds a line feed when no name or symbol does. */
  lemma CsvLinesAvoidLineFeed(ps: seq<Party>)
    requires TextFieldsAvoid(ps, '\n')
    ensures NoneHolds(CsvLines(ps), '\n')
  {
    var total := TotalVotes(ps);
    var head := [Join(HeaderFields, ',')];
    var rows := RowLines(ps, total);
    var tail := ["", TotalLine(total)];
    HeaderLine();
    assert NoneHolds(head, '\n');
    TotalLineColumns(total);
    assert NoneHolds(tail, '\n');
    RowLinesAvoid(ps, total, '\n');
    NoneHoldsConcat(head, rows, '\n');
    NoneHoldsConcat(head + rows, tail, '\n');
  }

  /** The export's lines, one by one. */
  lemma CsvLinesShape(ps: seq<Party>)
    ensures |CsvLines(ps)| == |ps| + 3
    ensures CsvLines(ps)[0] == "Partido,Símbolo,Votos,Porcentaje"
    ensures forall i :: 0 <= i < |ps| ==> CsvLines(ps)[i + 1] == RowLine(ps[i], TotalVotes(ps))
    ensures CsvLines(ps)[|ps| + 1] == ""
    ensures CsvLines(ps)[|ps| + 2] == TotalLine(TotalVotes(ps))
  {
    var total := TotalVotes(ps);
    var rows := RowLines(ps, total);
    assert CsvLines(ps) == [Join(HeaderFields, ',')] + rows + ["", TotalLine(total)];
    Framed(Join(HeaderFields, ','), rows, "", TotalLine(total));
    HeaderLine();
    assert forall i :: 0 <= i < |ps| ==> rows[i] == RowLine(ps[i], total);
  }

  /**
   * When no name or symbol holds a line feed, the export splits into exactly
   * `|ps| + 3` lines: the header, each party's line in list order, an empty
   * line, and `Total de Votos,,,` followed by the sum of all counts.
   */
  lemma CsvLayout(ps: seq<Party>)
    requires TextFieldsAvoid(ps, '\n')
    ensures Split(ExportCsv(ps), '\n') == CsvLines(ps)
    ensures |Split(ExportCsv(ps), '\n')| == |ps| + 3
    ensures Split(ExportCsv(ps), '\n')[0] == "Partido,Símbolo,Votos,Porcentaje"
    ensures forall i :: 0 <= i < |ps| ==>
      Split(ExportCsv(ps), '\n')[i + 1] == RowLine(ps[i], TotalVotes(ps))
    ensures Split(ExportCsv(ps), '\n')[|ps| + 1] == ""
    ensures Split(ExportCsv(ps), '\n')[|ps| + 2] == TotalLine(TotalVotes(ps))
  {
    CsvLinesShape(ps);
    CsvLinesAvoidLineFeed(ps);
    SplitJoin(CsvLines(ps), '\n');
  }

  /**
   * When a party's name and symbol hold no comma, its line splits back into
   * its four fields, and the count reads back exactly.
   */
  lemma CsvRowRoundTrip(p: Party, total: int)
    requires ',' !in p.name && ',' !in p.symbol
    ensures Split(RowLine(p, total), ',') == RowFields(p, total)
    ensures ParseDecimal(Split(RowLine(p, total), ',')[2]) == Some(p.votes)
  {
    var f := RowFields(p, total);
    assert ',' !in f[2];
    assert ',' !in f[3];
    SplitJoin(f, ',');
    IntToStringRoundTrip(p.votes);
  }

  /** Occurrences of `c` in four comma-joined fields whose last two do not hold it. */
  lemma FourFieldsOccurrences(f: seq<string>, c: char)
    requires |f| == 4 && c !in f[2] && c !in f[3]
    ensures multiset(Join(f, ','))[c]
      == (if c == ',' then 3 else 0) + multiset(f[0])[c] + multiset(f[1])[c]
  {
    JoinOccurrences(f, ',', c);
    assert multiset(f[2])[c] == 0 && multiset(f[3])[c] == 0;
    var t1 := f[1..];
    var t2 := t1[1..];
    var t3 := t2[1..];
    assert t3[1..] == [];
    assert Occurrences(t3, c) == multiset(f[3])[c];
    assert Occurrences(t2, c) == multiset(f[2])[c] + Occurrences(t3, c);
    assert Occurrences(t1, c) == multiset(f[1])[c] + Occurrences(t2, c);
  }

  /**
   * Any other character occurs in a party's line exactly as often as in its
   * name and symbol together: the count and the percentage never hold it.
   */
  lemma RowOccurrences(p: Party, total: int, c: char)
    requires c != ',' && !IsPercentChar(c) && c != '%'
    ensures multiset(RowLine(p, total))[c] == multiset(p.name)[c] + multiset(p.symbol)[c]
  {
    var f := RowFields(p, total);
    assert c !in f[2] && c !in f[3];
    FourFieldsOccurrences(f, c);
  }

  /**
   * The fields are not quoted: a party's line splits on commas into four
   * fields plus one more for every comma in its name or symbol.
   */
  lemma RowFieldCount(p: Party, total: int)
    ensures |Split(RowLine(p, total), ',')|
      == 4 + multiset(p.name)[','] + multiset(p.symbol)[',']
  {
    var f := RowFields(p, total);
    assert ',' !in f[2] && ',' !in f[3];
    FourFieldsOccurrences(f, ',');
    SplitCount(RowLine(p, total), ',');
  }

  /**
   * A name `a,b` spreads over two fields, which pushes the symbol into the
   * count's column and the count into the percentage's column.
   */
  lemma CommaInNameShiftsColumns(p: Party, total: int, a: string, b: string)
    requires p.name == a + [','] + b && ',' !in a && ',' !in b && ',' !in p.symbol
    ensures Split(RowLine(p, total), ',')
      == [a, b, p.symbol, IntToString(p.votes), PercentText(p.votes, total) + "%"]
  {
    var f := RowFields(p, total);
    var pieces := [a, b, p.symbol, f[2], f[3]];
    assert Join(f, ',') == Join(pieces, ',') by {
      assert Join(f, ',') == p.name + [','] + Join(f[1..], ',');
      assert Join(pieces, ',') == a + [','] + (b + [','] + Join(pieces[2..], ','));
      assert pieces[2..] == f[1..];
    }
    assert ',' !in f[2];
    assert ',' !in f[3];
    SplitJoin(pieces, ',');
  }

  /** The line feeds in all names and symbols of the list. */
  function LineFeeds(ps: seq<Party>): nat
  {
    if ps == [] then 0
    else multiset(ps[0].name)['\n'] + multiset(ps[0].symbol)['\n'] + LineFeeds(ps[1..])
  }

  lemma {:induction false} RowLinesLineFeeds(ps: seq<Party>, total: int)
    ensures Occurrences(RowLines(ps, total), '\n') == LineFeeds(ps)
  {
    if ps != [] {
      var rows := RowLines(ps, total);
      RowLinesLineFeeds(ps[1..], total);
      assert rows[1..] == RowLines(ps[1..], total);
      assert rows[0] == RowLine(ps[0], total);
      RowOccurrences(ps[0], total, '\n');
    }
  }

  /** The export's only line feeds inside its lines are those of the names and symbols. */
  lemma CsvLinesLineFeeds(ps: seq<Party>)
    ensures Occurrences(CsvLines(ps), '\n') == LineFeeds(ps)
  {
    var total := TotalVotes(ps);
    var head := [Join(HeaderFields, ',')];
    var rows := RowLines(ps, total);
    var tail := ["", TotalLine(total)];
    assert CsvLines(ps) == head + rows + tail;
    HeaderLine();
    assert NoneHolds(head, '\n');
    TotalLineColumns(total);
    assert NoneHolds(tail, '\n');
    OccurrencesBetween(head, rows, tail, '\n');
    RowLinesLineFeeds(ps, total);
  }

  /**
   * Whatever the names and symbols hold, the export splits on LF into
   * `|ps| + 3` lines plus one more for every line feed in a name or symbol.
   */
  lemma ExportLineCount(ps: seq<Party>)
    ensures |Split(ExportCsv(ps), '\n')| == |ps| + 3 + LineFeeds(ps)
  {
    CsvLinesShape(ps);
    CsvLinesLineFeeds(ps);
    SplitJoinCount(CsvLines(ps), '\n');
  }

  // ---------------------------------------------------------------------------
  // Reset

  /** The requests `resetAllVotes` sends: `votes: 0` for each listed party, in list order. */
  function ResetRequests(ps: seq<Party>): seq<Request>
  {
    seq(|ps|, i requires 0 <= i < |ps| => SetVotes(ps[i].id, 0))
  }

  /**
   * Once the table has applied every reset request, each row whose id was in
   * the page's list has 0 votes, every other field of every row is unchanged,
   * and rows the page's list did not show are left as they were.
   */
  lemma ResetAllZeroes(table: seq<Party>, listed: seq<Party>)
    ensures |ApplyAll(table, ResetRequests(listed))| == |table|
    ensures forall i :: 0 <= i < |table| ==>
      ApplyAll(table, ResetRequests(listed))[i] ==
        if exists j :: 0 <= j < |listed| && listed[j].id == table[i].id
        then table[i].(votes := 0) else table[i]
  {
    var rs := ResetRequests(listed);
    ApplyAllZeroes(table, rs);
    forall i | 0 <= i < |table|
      ensures (table[i].id in Ids(rs)) ==
        exists j :: 0 <= j < |listed| && listed[j].id == table[i].id
    {
      if exists j :: 0 <= j < |listed| && listed[j].id == table[i].id {
        var j :| 0 <= j < |listed| && listed[j].id == table[i].id;
        assert rs[j] in rs;
      }
    }
  }

  /** With the page's list up to date, resetting all votes leaves every row at 0 and nothing else changed. */
  lemma ResetAllOnCurrentList(table: seq<Party>)
    ensures |ApplyAll(table, ResetRequests(table))| == |table|
    ensures forall i :: 0 <= i < |table| ==>
      ApplyAll(table, ResetRequests(table))[i] == table[i].(votes := 0)
  {
    ResetAllZeroes(table, table);
  }

  // ---------------------------------------------------------------------------
  // Create form and symbol picker

  datatype PartyForm = PartyForm(name: string, symbol: string, color: string, description: string)

  /** The form's initial value, and the value it returns to after a successful create. */
  const BlankForm := PartyForm("", "sol", "#3B82F6", "")

  const Symbols: seq<string> := ["sol", "agua", "tierra", "aire", "fuego", "estrella"]

  const SymbolLabelsShown: seq<string> := ["Sol", "Agua", "Tierra", "Aire", "Fuego", "Estrella"]

  /** `toUpperCase` on one character; only ASCII letters are modelled. */
  function UpperAscii(c: char): (u: char)
    ensures 'a' <= c <= 'z' ==> 'A' <= u <= 'Z' && u as int == c as int - 32
    ensures !('a' <= c <= 'z') ==> u == c
  {
    if 'a' <= c <= 'z' then (c as int - 32) as char else c
  }

  /** `symbol.charAt(0).toUpperCase() + symbol.slice(1)`. */
  function SymbolLabel(symbol: string): (shown: string)
    ensures |shown| == |symbol|
    ensures symbol != [] ==> shown[0] == UpperAscii(symbol[0]) && shown[1..] == symbol[1..]
  {
    if symbol == [] then "" else [UpperAscii(symbol[0])] + symbol[1..]
  }

  /** The picker shows the six symbols capitalised, in their order. */
  lemma SymbolLabels()
    ensures forall i :: 0 <= i < |Symbols| ==> SymbolLabel(Symbols[i]) == SymbolLabelsShown[i]
  {
    forall i | 0 <= i < |Symbols|
      ensures SymbolLabel(Symbols[i]) == SymbolLabelsShown[i]
    {
      var s := Symbols[i];
      var t := SymbolLabelsShown[i];
      assert |s| == |t| && s[1..] == t[1..];
      assert UpperAscii(s[0]) == t[0];
      assert t == [t[0]] + t[1..];
    }
  }

  /** Two lower-case symbols get the same label only if they are the same symbol. */
  lemma SymbolLabelInjective(a: string, b: string)
    requires a != [] && b != [] && 'a' <= a[0] <= 'z' && 'a' <= b[0] <= 'z'
    requires SymbolLabel(a) == SymbolLabel(b)
    ensures a == b
  {
    assert a == [a[0]] + a[1..] && b == [b[0]] + b[1..];
  }

  class AdminPanel {
    /** The page's current copy of the party list. */
    var parties: seq<Party>
    var form: PartyForm
    var showAddParty: bool
    /** `createPartyMutation.isPending`. */
    var createPending: bool
    /** Every vote-counter update the page has sent, in order. */
    var sentResets: seq<Request>
    /** Every create request the page has sent, in order. */
    var sentCreates: seq<PartyForm>
    /** Every delete request the page has sent (party ids), in order. */
    var sentDeletes: seq<string>

    constructor (listed: seq<Party>)
      ensures parties == listed && form == BlankForm && !showAddParty && !createPending
      ensures sentResets == [] && sentCreates == [] && sentDeletes == []
    {
      parties := listed;
      form := BlankForm;
      showAddParty := false;
      createPending := false;
      sentResets := [];
      sentCreates := [];
      sentDeletes := [];
    }

    /** `resetAllVotes`: after the confirmation, one `votes: 0` request per listed party. */
    method ResetAllVotes(confirmed: bool)
      modifies this`sentResets
      ensures sentResets == old(sentResets) + (if confirmed then ResetRequests(parties) else [])
    {
      if !confirmed {
        return;
      }
      var i := 0;
      while i < |parties|
        invariant 0 <= i <= |parties|
        invariant sentResets == old(sentResets) + ResetRequests(parties[..i])
      {
        assert ResetRequests(parties[..i + 1])
          == ResetRequests(parties[..i]) + [SetVotes(parties[i].id, 0)];
        sentResets := sentResets + [SetVotes(parties[i].id, 0)];
        i := i + 1;
      }
      assert parties[..i] == parties;
    }

    /** The per-row reset button: one `votes: 0` request for that party. */
    method ResetVotes(id: string)
      modifies this`sentResets
      ensures sentResets == old(sentResets) + [SetVotes(id, 0)]
    {
      sentResets := sentResets + [SetVotes(id, 0)];
    }

    /** A row's delete button: after the confirmation, one delete request for that party. */
    method DeleteParty(id: string, confirmed: bool)
      modifies this`sentDeletes
      ensures sentDeletes == old(sentDeletes) + (if confirmed then [id] else [])
    {
      if confirmed {
        sentDeletes := sentDeletes + [id];
      }
    }

    /** `disabled={!newParty.name || createPartyMutation.isPending}`, negated. */
    function CreateEnabled(): bool
      reads this
    {
      !(form.name == "" || createPending)
    }

    method EditName(value: string)
      modifies this`form
      ensures form == old(form).(name := value)
    {
      form := form.(name := value);
    }

    method EditSymbol(value: string)
      modifies this`form
      ensures form == old(form).(symbol := value)
    {
      form := form.(symbol := value);
    }

    method EditColor(value: string)
      modifies this`form
      ensures form == old(form).(color := value)
    {
      form := form.(color := value);
    }

    method EditDescription(value: string)
      modifies this`form
      ensures form == old(form).(description := value)
    {
      form := form.(description := value);
    }

    /** The dialog's `onOpenChange`. */
    method SetDialogOpen(open: bool)
      modifies this`showAddParty
      ensures showAddParty == open
    {
      showAddParty := open;
    }

    /**
     * A click on "Crear Partido". The disabled button ignores it; an enabled
     * one sends the form as one create request and marks it pending.
     */
    method ClickCreate() returns (issued: bool)
      modifies this`createPending, this`sentCreates
      ensures issued <==> old(form.name) != "" && !old(createPending)
      ensures issued ==> createPending && sentCreates == old(sentCreates) + [form]
      ensures !issued ==> createPending == old(createPending) && sentCreates == old(sentCreates)
    {
      if !CreateEnabled() {
        return false;
      }
      sentCreates := sentCreates + [form];
      createPending := true;
      return true;
    }

    /**
     * The pending create resolves. Success closes the dialog and returns the
     * form to its initial value; failure keeps both as they are.
     */
    method SettleCreate(succeeded: bool)
      requires createPending
      modifies this`createPending, this`showAddParty, this`form
      ensures !createPending
      ensures succeeded ==> !showAddParty && form == BlankForm
      ensures !succeeded ==> showAddParty == old(showAddParty) && form == old(form)
    {
      createPending := false;
      if succeeded {
        showAddParty := false;
        form := BlankForm;
      }
    }
  }
}
