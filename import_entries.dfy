/**
 * The `import_accounting_entries` command: it reads a semicolon-separated file
 * and, for every row marked 'G' on a class 6 or 7 account, creates the account
 * if its number is new and records one entry (older schema: an entry carries
 * a date, an account, a title and an amount). The file is given as its list of
 * lines. A row that makes Python or the database raise aborts the command:
 * before the account is looked up (a missing column, an empty account number,
 * a date that does not parse), while the account is created (a number or a
 * title too long for its column), or once the account exists (an amount the
 * decimal column refuses, an entry title too long). The rows before it stay
 * recorded, and so does an account created for the failing row, since nothing
 * wraps the loop in a transaction.
 */
module ImportEntries {

  import opened Common
  import opened Calendar
  import opened Text

  /** An entry of the older schema; the account is referred to by its number. */
  datatype ImportedEntry = ImportedEntry(date: Date, account: string, title: string, amount: int)

  /**
   * What one row asks for: nothing, an error before the account is looked up, or
   * an entry on an account; `amount` is the stored amount in hundredths, None
   * when the amount column makes the save raise.
   */
  datatype RowAction =
    | Skip
    | Crash
    | Post(date: Date, number: string, accountTitle: string, title: string, amount: Option<int>)

  /** `Account.number` is a `varchar(7)`; the titles are `varchar(100)`. */
  const NumberLength := 7
  const TitleLength := 100

  /** Amounts are stored in a `DecimalField(max_digits=8, decimal_places=2)`: below 10^8 hundredths. */
  const AmountLimit := 100000000

  /**
   * What saving the text into the amount column stores, in hundredths: `to_python`
   * reads it with `Decimal` and `format_number` rounds it to two places, half to
   * even, raising when eight digits do not hold the result; None where either
   * raises.
   */
  function ParseAmount(s: string): (r: Option<int>)
    ensures r.Some? ==> -AmountLimit < r.value < AmountLimit
    ensures r.Some? ==> ReadDecimal(s).Some?
  {
    match ReadDecimal(s)
    case None => None
    case Some(d) =>
      var c := Hundredths(d);
      if -AmountLimit < c < AmountLimit then Some(c) else None
  }

  /** `datetime.date(int(s[4:6]), int(s[2:4]), int(s[0:2]))`: day, month, two-digit year taken as is. */
  function ParseDDMMYY(s: string): (r: Option<Date>)
    ensures r.Some? ==> Valid(r.value) && 1 <= r.value.year <= 99
  {
    ParseIntTwoChars(Slice(s, 4, 6));
    match (ParseInt(Slice(s, 4, 6)), ParseInt(Slice(s, 2, 4)), ParseInt(Slice(s, 0, 2)))
    case (Some(y), Some(m), Some(d)) =>
      if Valid(Date(y, m, d)) then Some(Date(y, m, d)) else None
    case _ => None
  }

  /**
   * One row, already split into fields: rows not marked 'G' in column 8 and rows
   * whose account number (column 2) does not start with 6 or 7 do nothing; the
   * others post an entry dated by column 1, titled by column 6, with the amount
   * of column 7, on the account numbered by column 2 (titled by column 3 if it is
   * created).
   */
  function ParseRow(row: seq<string>): (r: RowAction)
    ensures r.Post? ==> |row| >= 9 && row[8] == "G" && row[2] != [] && (row[2][0] == '6' || row[2][0] == '7')
    ensures r.Post? ==> r.number == row[2] && r.accountTitle == row[3] && r.title == row[6]
    ensures r.Post? ==> Some(r.date) == ParseDDMMYY(row[1]) && r.amount == ParseAmount(row[7])
    ensures r.Skip? <==> |row| >= 9 && (row[8] != "G" || (row[2] != [] && row[2][0] != '6' && row[2][0] != '7'))
  {
    if |row| < 9 then Crash
    else if row[8] != "G" then Skip
    else if row[2] == [] then Crash
    else if row[2][0] != '6' && row[2][0] != '7' then Skip
    else
      match ParseDDMMYY(row[1])
      case None => Crash
      case Some(date) => Post(date, row[2], row[3], row[6], ParseAmount(row[7]))
  }

  /** The state of the two tables, and whether the command is still running. */
  datatype ImportState = ImportState(accounts: map<string, string>, entries: seq<ImportedEntry>, running: bool)

  /** The effect of one line on the tables. */
  function ImportStep(st: ImportState, line: string): ImportState {
    if !st.running then st
    else
      match ParseRow(Split(line, ';'))
      case Skip => st
      case Crash => st.(running := false)
      case Post(date, number, accountTitle, title, amount) =>
        if number !in st.accounts && !AccountFits(number, accountTitle) then st.(running := false)
        else
          var accounts := if number in st.accounts then st.accounts else st.accounts[number := accountTitle];
          if amount.None? || |title| > TitleLength then ImportState(accounts, st.entries, false)
          else ImportState(accounts, st.entries + [ImportedEntry(date, number, title, amount.value)], true)
  }

  /** A new account's number and title fit their columns (the database refuses longer values). */
  predicate AccountFits(number: string, title: string) {
    |number| <= NumberLength && |title| <= TitleLength
  }

  /** The effect of the lines, in order. */
  function ImportLines(st: ImportState, lines: seq<string>): ImportState {
    if lines == [] then st else ImportStep(ImportLines(st, lines[..|lines| - 1]), lines[|lines| - 1])
  }

  /** The database tables the command writes to. */
  class Journal {
    var accounts: map<string, string>
    var entries: seq<ImportedEntry>

    constructor(accounts: map<string, string>, entries: seq<ImportedEntry>)
      ensures this.accounts == accounts && this.entries == entries
    {
      this.accounts := accounts;
      this.entries := entries;
    }

    /**
     * `Account.objects.get_or_create(number=number, defaults={'title': title})`;
     * `ok` is false when the insert of a new account raises, which its savepoint
     * rolls back.
     */
    method GetOrCreateAccount(number: string, title: string) returns (ok: bool)
      modifies this
      ensures ok <==> number in old(accounts) || AccountFits(number, title)
      ensures accounts == if number in old(accounts) || !ok then old(accounts) else old(accounts)[number := title]
      ensures entries == old(entries)
    {
      if number in accounts {
        return true;
      }
      if !AccountFits(number, title) {
        return false;
      }
      accounts := accounts[number := title];
      return true;
    }

    /** `handle`: the loop over the rows; `ok` is false when a row raised. */
    method Import(lines: seq<string>) returns (ok: bool)
      modifies this
      ensures ImportState(accounts, entries, ok) == ImportLines(ImportState(old(accounts), old(entries), true), lines)
    {
      ghost var start := ImportState(accounts, entries, true);
      var i := 0;
      while i < |lines|
        invariant i <= |lines|
        invariant ImportState(accounts, entries, true) == ImportLines(start, lines[..i])
      {
        ImportPrefixStep(start, lines, i);
        var row := Split(lines[i], ';');
        match ParseRow(row) {
          case Skip =>
          case Crash =>
            FailedStays(start, lines, i);
            return false;
          case Post(date, number, accountTitle, title, amount) =>
            var stored := GetOrCreateAccount(number, accountTitle);
            if !stored || amount.None? || |title| > TitleLength {
              FailedStays(start, lines, i);
              return false;
            }
            entries := entries + [ImportedEntry(date, number, title, amount.value)];
        }
        i := i + 1;
      }
      assert lines[..i] == lines;
      return true;
    }
  }

  /** `"{:f}".format(v)` of a stored amount of c hundredths: sign, units, point, two decimals. */
  function AmountText(c: int): string {
    var m := if c < 0 then -c else c;
    (if c < 0 then "-" else "") + NatToString(m / 100) + "." + ZeroPad(NatToString(m % 100), 2)
  }

  /** Every amount the column holds reads back from its text as itself. */
  lemma AmountRoundTrip(c: int)
    requires -AmountLimit < c < AmountLimit
    ensures ParseAmount(AmountText(c)) == Some(c)
  {
    var m := if c < 0 then -c else c;
    var w, f := NatToString(m / 100), ZeroPad(NatToString(m % 100), 2);
    var sign := if c < 0 then "-" else "";
    var t := AmountText(c);
    assert t == sign + w + "." + f;
    AmountDigits(m);
    ReadPointed(sign, w, f);
    var d := DecimalText(c < 0, w, f);
    assert ReadDecimal(t) == Some(d);
    TwoDecimals(c < 0, w, f);
    assert Hundredths(d) == c;
    AcceptedAmount(t, d);
  }

  /** Text read as a literal whose value fits the column is stored as that value. */
  /** A literal without decimals is worth a hundred hundredths per unit. */
  lemma NoDecimals(w: string)
    requires AllDigits(w)
    ensures Hundredths(DecimalText(false, w, "")) == DigitsValue(w) * 100
  {
    assert w + "" == w;
    assert Pow10(2) == 100;
  }

  /** Text read as a literal whose value does not fit the column makes the save raise. */
  lemma RefusedAmount(t: string, d: DecimalText)
    requires ReadDecimal(t) == Some(d)
    requires !(-AmountLimit < Hundredths(d) < AmountLimit)
    ensures ParseAmount(t).None?
  {
  }

  lemma AcceptedAmount(t: string, d: DecimalText)
    requires ReadDecimal(t) == Some(d)
    requires -AmountLimit < Hundredths(d) < AmountLimit
    ensures ParseAmount(t) == Some(Hundredths(d))
  {
  }

  /** The units and the two padded decimals of m hundredths, read together, give m back. */
  lemma AmountDigits(m: nat)
    ensures var w, f := NatToString(m / 100), ZeroPad(NatToString(m % 100), 2);
      AllDigits(f) && |f| == 2 && AllDigits(w + f) && DigitsValue(w + f) == m
  {
    var q, r := m / 100, m % 100;
    var w, f := NatToString(q), ZeroPad(NatToString(r), 2);
    assert |NatToString(r)| <= 2 by {
      if r >= 10 {
        assert |NatToString(r / 10)| == 1;
      }
    }
    ZeroPadValue(NatToString(r), 2);
    ParseNatToString(r);
    assert ParseNat(f) == Some(r);
    assert AllDigits(f) && DigitsValue(f) == r;
    ParseNatToString(q);
    DigitsValueConcat(w, f);
    assert Pow10(2) == 100;
    assert m == q * 100 + r;
  }

  /** A literal with exactly two decimals is read without rounding. */
  lemma TwoDecimals(negative: bool, w: string, f: string)
    requires AllDigits(w) && AllDigits(f) && |f| == 2
    ensures AllDigits(w + f)
    ensures var v: int := DigitsValue(w + f);
      Hundredths(DecimalText(negative, w, f)) == if negative then -v else v
  {
    DigitsValueConcat(w, f);
    assert Pow10(0) == 1;
  }

  /** A signed literal with a point reads as its sign and its two runs of digits. */
  lemma ReadPointed(sign: string, w: string, f: string)
    requires sign == "" || sign == "-"
    requires w != [] && AllDigits(w) && AllDigits(f)
    ensures ReadDecimal(sign + w + "." + f) == Some(DecimalText(sign == "-", w, f))
  {
    var body := w + "." + f;
    assert sign + w + "." + f == sign + body;
    PointedNoSpace(w, f);
    ReadSigned(sign, body);
    SplitPointed(w, f);
    TwoParts(sign == "-", w, f);
  }

  /** A literal is read by splitting what follows its sign on the point. */
  lemma ReadSigned(sign: string, body: string)
    requires sign == "" || sign == "-"
    requires body != [] && IsDigit(body[0]) && forall k :: 0 <= k < |body| ==> body[k] != ' ' && !IsSpace(body[k])
    ensures forall i :: 0 <= i < |Split(body, '.')| ==> '.' !in Split(body, '.')[i]
    ensures |Split(body, '.')| >= 1
    ensures ReadDecimal(sign + body) == ReadParts(sign == "-", Split(body, '.'))
  {
    NoSpaceInLiteral(sign, body);
    UnsignedBody(sign, body);
  }

  /** Two runs of digits, the first one not empty, are a literal with a point. */
  lemma TwoParts(negative: bool, w: string, f: string)
    requires w != [] && AllDigits(w) && AllDigits(f) && '.' !in w && '.' !in f
    ensures ReadParts(negative, [w, f]) == Some(DecimalText(negative, w, f))
  {
  }

  /** Two runs of digits joined by a point hold no space and start with a digit. */
  lemma PointedNoSpace(w: string, f: string)
    requires w != [] && AllDigits(w) && AllDigits(f)
    ensures var body := w + "." + f;
      body != [] && IsDigit(body[0]) && forall k :: 0 <= k < |body| ==> body[k] != ' ' && !IsSpace(body[k])
  {
    var body := w + "." + f;
    forall k | 0 <= k < |body|
      ensures body[k] != ' ' && !IsSpace(body[k])
    {
      if k < |w| {
        assert body[k] == w[k];
      } else if k > |w| {
        assert body[k] == f[k - |w| - 1];
      }
    }
  }

  /** Splitting two runs of digits joined by a point on the point gives them back. */
  lemma SplitPointed(w: string, f: string)
    requires AllDigits(w) && AllDigits(f)
    ensures Split(w + "." + f, '.') == [w, f]
  {
    assert '.' !in w by {
      assert forall k :: 0 <= k < |w| ==> IsDigit(w[k]);
    }
    assert '.' !in f by {
      assert forall k :: 0 <= k < |f| ==> IsDigit(f[k]);
    }
    assert Join([w, f], '.') == w + "." + f by {
      assert [w, f][..1] == [w];
    }
    SplitJoin([w, f], '.');
  }

  /** A signed literal without a point reads as its sign and its digits. */
  lemma ReadWhole(sign: string, w: string)
    requires sign == "" || sign == "-"
    requires w != [] && AllDigits(w)
    ensures ReadDecimal(sign + w) == Some(DecimalText(sign == "-", w, ""))
  {
    ReadSigned(sign, w);
    SplitWhole(w);
    assert ReadParts(sign == "-", [w]) == Some(DecimalText(sign == "-", w, ""));
  }

  /** A run of digits has no point to split on. */
  lemma SplitWhole(w: string)
    requires AllDigits(w)
    ensures Split(w, '.') == [w]
  {
    assert '.' !in w by {
      assert forall k :: 0 <= k < |w| ==> IsDigit(w[k]);
    }
    assert Join([w], '.') == w;
    SplitJoin([w], '.');
  }

  /** What follows the sign of a literal is its body. */
  lemma UnsignedBody(sign: string, body: string)
    requires sign == "" || sign == "-"
    requires body != [] && IsDigit(body[0])
    ensures var t := sign + body;
      && (t[0] == '+' || t[0] == '-') == (sign == "-")
      && (if t[0] == '+' || t[0] == '-' then t[1..] else t) == body
  {
    if sign == "-" {
      assert (sign + body)[1..] == body;
    } else {
      assert sign + body == body;
    }
  }

  /** An optional minus sign followed by a body starting with a digit, without spaces, is its own strip. */
  lemma NoSpaceInLiteral(sign: string, body: string)
    requires sign == "" || sign == "-"
    requires body != [] && IsDigit(body[0]) && forall k :: 0 <= k < |body| ==> body[k] != ' ' && !IsSpace(body[k])
    ensures Strip(sign + body) == sign + body
  {
    var t := sign + body;
    forall k | 0 <= k < |t|
      ensures !IsSpace(t[k])
    {
      if k >= |sign| {
        assert t[k] == body[k - |sign|];
      }
    }
  }

  /** A whole number of units is accepted iff it has at most six digits' worth of value. */
  lemma WholeAmountLimit(w: string)
    requires w != [] && AllDigits(w)
    ensures ParseAmount(w).Some? <==> DigitsValue(w) < 1000000
    ensures ParseAmount(w).Some? ==> ParseAmount(w).value == DigitsValue(w) * 100
  {
    ReadWhole("", w);
    assert "" + w == w;
    var d := DecimalText(false, w, "");
    assert ReadDecimal(w) == Some(d);
    var v := DigitsValue(w);
    NoDecimals(w);
    if v < 1000000 {
      AcceptedAmount(w, d);
    } else {
      assert v * 100 >= AmountLimit;
      RefusedAmount(w, d);
    }
  }

  /** A decimal comma is not a decimal point: "12,50" makes the save raise. */
  lemma CommaRefused()
    ensures ParseAmount("12,50").None?
  {
    var s := "12,50";
    assert forall k :: 0 <= k < |s| ==> !IsSpace(s[k]);
    assert '.' !in s;
    assert Join([s], '.') == s;
    SplitJoin([s], '.');
    assert !IsDigit(s[2]);
  }

  /** A third decimal is rounded half to even: "0.125" is stored as 0.12. */
  lemma ThirdDecimalRounds()
    ensures ParseAmount("0.125") == Some(12)
  {
    ReadPointed("", "0", "125");
    assert "" + "0" + "." + "125" == "0.125";
    var d := DecimalText(false, "0", "125");
    assert ReadDecimal("0.125") == Some(d);
    TieValue();
    AcceptedAmount("0.125", d);
  }

  /** "0.125" is worth 12.5 hundredths, a tie rounded to the even 12. */
  lemma TieValue()
    ensures Hundredths(DecimalText(false, "0", "125")) == 12
  {
    assert DigitsValue("0125") == 125 by {
      assert "0125"[..3] == "012" && "012"[..2] == "01" && "01"[..1] == "0" && "0"[..0] == [];
    }
    assert "0" + "125" == "0125";
    assert Pow10(1) == 10;
    assert RoundHalfEven(125, 10) == 12;
  }

  /** One more line of the file is one more step. */
  lemma ImportPrefixStep(st: ImportState, lines: seq<string>, i: nat)
    requires i < |lines|
    ensures ImportLines(st, lines[..i + 1]) == ImportStep(ImportLines(st, lines[..i]), lines[i])
  {
    assert lines[..i + 1][..i] == lines[..i];
  }

  /** Once a row has raised, later lines change nothing. */
  lemma {:induction false} FailedStays(st: ImportState, lines: seq<string>, i: nat)
    requires i < |lines| && !ImportLines(st, lines[..i + 1]).running
    ensures ImportLines(st, lines) == ImportLines(st, lines[..i + 1])
    decreases |lines|
  {
    if |lines| == i + 1 {
      assert lines[..i + 1] == lines;
    } else {
      assert lines[..|lines| - 1][..i + 1] == lines[..i + 1];
      FailedStays(st, lines[..|lines| - 1], i);
    }
  }

  /** A date of the file: 31 December 2019 written 311219 is read as 31 December of year 19. */
  lemma NoCenturyAdded()
    ensures ParseDDMMYY("311219") == Some(Date(19, 12, 31))
  {
    assert Slice("311219", 4, 6) == "19" && Slice("311219", 2, 4) == "12" && Slice("311219", 0, 2) == "31";
    assert AllDigits("19") && AllDigits("12") && AllDigits("31");
    assert DigitsValue("19") == 19 by { assert "19"[..1] == "1"; assert "1"[..0] == []; }
    assert DigitsValue("12") == 12 by { assert "12"[..1] == "1"; assert "1"[..0] == []; }
    assert DigitsValue("31") == 31 by { assert "31"[..1] == "3"; assert "3"[..0] == []; }
  }

  /** A two-digit field with leading zero. */
  function Pad2(n: nat): string {
    ZeroPad(NatToString(n), 2)
  }

  lemma Pad2Reads(n: nat)
    requires n <= 99
    ensures |Pad2(n)| == 2 && AllDigits(Pad2(n)) && DigitsValue(Pad2(n)) == n
  {
    var s := NatToString(n);
    if n >= 10 {
      assert |NatToString(n / 10)| == 1;
    }
    ZeroPadValue(s, 2);
    ParseNatToString(n);
  }

  /** Every date of years 1 to 99 written DDMMYY reads back as itself. */
  lemma DDMMYYRoundTrip(d: Date)
    requires Valid(d) && d.year <= 99
    ensures ParseDDMMYY(Pad2(d.day) + Pad2(d.month) + Pad2(d.year)) == Some(d)
  {
    var dd, mm, yy := Pad2(d.day), Pad2(d.month), Pad2(d.year);
    Pad2Parses(d.day);
    Pad2Parses(d.month);
    Pad2Parses(d.year);
    ThreeFields(dd, mm, yy);
    FieldsRead(dd + mm + yy, d);
  }

  lemma FieldsRead(s: string, d: Date)
    requires Valid(d)
    requires ParseInt(Slice(s, 4, 6)) == Some(d.year)
    requires ParseInt(Slice(s, 2, 4)) == Some(d.month)
    requires ParseInt(Slice(s, 0, 2)) == Some(d.day)
    ensures ParseDDMMYY(s) == Some(d)
  {
  }

  lemma Pad2Parses(n: nat)
    requires n <= 99
    ensures |Pad2(n)| == 2 && ParseInt(Pad2(n)) == Some(n)
  {
    Pad2Reads(n);
  }

  lemma ThreeFields(a: string, b: string, c: string)
    requires |a| == 2 && |b| == 2 && |c| == 2
    ensures Slice(a + b + c, 0, 2) == a && Slice(a + b + c, 2, 4) == b && Slice(a + b + c, 4, 6) == c
  {
    var s := a + b + c;
    assert s[0..2] == a && s[2..4] == b && s[4..6] == c;
  }

  /**
   * The command never changes what is already there: an existing account keeps
   * its title (the row's title only names a created account), and earlier entries
   * stay as they were.
   */
  lemma {:induction false} ImportKeeps(st: ImportState, lines: seq<string>)
    ensures var r := ImportLines(st, lines);
      && (forall n :: n in st.accounts ==> n in r.accounts && r.accounts[n] == st.accounts[n])
      && |st.entries| <= |r.entries| && r.entries[..|st.entries|] == st.entries
  {
    if lines != [] {
      ImportKeeps(st, lines[..|lines| - 1]);
      var r := ImportLines(st, lines[..|lines| - 1]);
      var r' := ImportLines(st, lines);
      assert r'.entries[..|r.entries|] == r.entries;
      assert r'.entries[..|st.entries|] == r.entries[..|st.entries|];
    }
  }

  /** A line posts an entry on an account (which succeeds unless the line raises). */
  predicate Creates(line: string) {
    ParseRow(Split(line, ';')).Post?
  }

  /** The line raises when it is read against the account table `accounts`. */
  predicate Raises(accounts: map<string, string>, line: string) {
    match ParseRow(Split(line, ';'))
    case Skip => false
    case Crash => true
    case Post(_, number, accountTitle, title, amount) =>
      (number !in accounts && !AccountFits(number, accountTitle)) || amount.None? || |title| > TitleLength
  }

  /** The command finishes iff no line raises against the accounts known when it is read. */
  lemma {:induction false} ImportRuns(st: ImportState, lines: seq<string>)
    requires st.running
    ensures ImportLines(st, lines).running <==> NoRaise(st, lines)
  {
    if lines != [] {
      var init := lines[..|lines| - 1];
      ImportRuns(st, init);
      StepCount(ImportLines(st, init), lines[|lines| - 1]);
      NoRaiseSnoc(st, lines);
    }
  }

  /** No line raises against the accounts the command holds when it reaches that line. */
  predicate NoRaise(st: ImportState, lines: seq<string>) {
    forall i :: 0 <= i < |lines| ==> !Raises(ImportLines(st, lines[..i]).accounts, lines[i])
  }

  /** No line of a longer file raises iff none of the shorter one does and the last one does not either. */
  lemma NoRaiseSnoc(st: ImportState, lines: seq<string>)
    requires lines != []
    ensures var init := lines[..|lines| - 1];
      NoRaise(st, lines) <==> NoRaise(st, init) && !Raises(ImportLines(st, init).accounts, lines[|lines| - 1])
  {
    var init, last := lines[..|lines| - 1], lines[|lines| - 1];
    if NoRaise(st, lines) {
      forall i | 0 <= i < |init|
        ensures !Raises(ImportLines(st, init[..i]).accounts, init[i])
      {
        assert lines[..i] == init[..i] && lines[i] == init[i];
      }
      assert lines[..|init|] == init;
    }
    if NoRaise(st, init) && !Raises(ImportLines(st, init).accounts, last) {
      forall i | 0 <= i < |lines|
        ensures !Raises(ImportLines(st, lines[..i]).accounts, lines[i])
      {
        if i < |init| {
          assert lines[..i] == init[..i] && lines[i] == init[i];
        } else {
          assert lines[..i] == init;
        }
      }
    }
  }

  /**
   * A row that raises before the account step, whose amount the decimal column
   * refuses or whose entry title is too long stops the command, whatever the
   * tables hold.
   */
  lemma BadRowStops(st: ImportState, lines: seq<string>, i: nat)
    requires st.running && i < |lines|
    requires var a := ParseRow(Split(lines[i], ';'));
      a.Crash? || (a.Post? && (a.amount.None? || |a.title| > TitleLength))
    ensures !ImportLines(st, lines).running
  {
    ImportRuns(st, lines);
  }

  /** Rows that raise against no account table at all let the command finish. */
  lemma CleanRowsRun(st: ImportState, lines: seq<string>)
    requires st.running
    requires forall line :: line in lines ==> !Raises(map[], line)
    ensures ImportLines(st, lines).running
  {
    ImportRuns(st, lines);
    forall i | 0 <= i < |lines|
      ensures !Raises(ImportLines(st, lines[..i]).accounts, lines[i])
    {
      assert lines[i] in lines;
    }
  }

  /**
   * When the account step passes but the amount or the entry title is refused,
   * the command stops with the row's account in the table (its insert came
   * first) and no entry added.
   */
  lemma AccountBeforeEntry(st: ImportState, line: string)
    requires st.running
    requires var a := ParseRow(Split(line, ';'));
      && a.Post? && (a.number in st.accounts || AccountFits(a.number, a.accountTitle))
      && (a.amount.None? || |a.title| > TitleLength)
    ensures var r := ImportStep(st, line);
      !r.running && ParseRow(Split(line, ';')).number in r.accounts && r.entries == st.entries
  {
  }

  /** When the command finishes, it has recorded exactly one entry per posting line. */
  lemma {:induction false} ImportCount(st: ImportState, lines: seq<string>)
    ensures ImportLines(st, lines).running ==>
      |ImportLines(st, lines).entries| == |st.entries| + |Where(lines, Creates)|
  {
    if lines != [] {
      var init := lines[..|lines| - 1];
      var last := lines[|lines| - 1];
      ImportCount(st, init);
      StepCount(ImportLines(st, init), last);
      assert Where(lines, Creates) == Where(init, Creates) + (if Creates(last) then [last] else []);
    }
  }

  /** One line stops a running import iff it raises, and adds an entry iff it posts one. */
  lemma StepCount(st: ImportState, line: string)
    ensures ImportStep(st, line).running <==> st.running && !Raises(st.accounts, line)
    ensures ImportStep(st, line).running ==>
      |ImportStep(st, line).entries| == |st.entries| + (if Creates(line) then 1 else 0)
  {
  }

  /**
   * Every entry refers to an account in the table, and the entries the command
   * records are on class 6 or 7 accounts, with amounts that fit the column.
   */
  lemma {:induction false} ImportIntegrity(st: ImportState, lines: seq<string>)
    requires forall e :: e in st.entries ==> e.account in st.accounts
    ensures var r := ImportLines(st, lines);
      && (forall e :: e in r.entries ==> e.account in r.accounts)
      && (forall i :: |st.entries| <= i < |r.entries| ==> r.entries[i].account != [] && r.entries[i].account[0] in {'6', '7'})
      && (forall i :: |st.entries| <= i < |r.entries| ==> -AmountLimit < r.entries[i].amount < AmountLimit)
  {
    if lines != [] {
      ImportIntegrity(st, lines[..|lines| - 1]);
      ImportKeeps(st, lines[..|lines| - 1]);
      IntegrityStep(ImportLines(st, lines[..|lines| - 1]), lines[|lines| - 1], |st.entries|);
    }
  }

  /** Entries on known accounts, and those from index `base` on on class 6 or 7 accounts with amounts that fit. */
  predicate Integral(r: ImportState, base: nat) {
    && (forall e :: e in r.entries ==> e.account in r.accounts)
    && (forall i :: base <= i < |r.entries| ==> r.entries[i].account != [] && r.entries[i].account[0] in {'6', '7'})
    && (forall i :: base <= i < |r.entries| ==> -AmountLimit < r.entries[i].amount < AmountLimit)
  }

  /** One line keeps the entries integral. */
  lemma IntegrityStep(r: ImportState, line: string, base: nat)
    requires base <= |r.entries| && Integral(r, base)
    ensures base <= |ImportStep(r, line).entries| && Integral(ImportStep(r, line), base)
  {
    var action := ParseRow(Split(line, ';'));
    var r' := ImportStep(r, line);
    if r.running && action.Post? && (action.number in r.accounts || AccountFits(action.number, action.accountTitle)) {
      var accounts := if action.number in r.accounts then r.accounts else r.accounts[action.number := action.accountTitle];
      if action.amount.None? || |action.title| > TitleLength {
        assert r' == ImportState(accounts, r.entries + [], false);
        IntegralExtend(r, accounts, [], false, base);
      } else {
        var added := ImportedEntry(action.date, action.number, action.title, action.amount.value);
        assert r' == ImportState(accounts, r.entries + [added], true);
        IntegralExtend(r, accounts, [added], true, base);
      }
    }
  }

  /** Appending entries on known class 6 or 7 accounts with fitting amounts, and adding accounts, keeps integrity. */
  lemma IntegralExtend(r: ImportState, accounts: map<string, string>, added: seq<ImportedEntry>, running: bool, base: nat)
    requires base <= |r.entries| && Integral(r, base)
    requires forall n :: n in r.accounts ==> n in accounts
    requires forall e :: e in added ==>
      e.account in accounts && e.account != [] && e.account[0] in {'6', '7'} && -AmountLimit < e.amount < AmountLimit
    ensures Integral(ImportState(accounts, r.entries + added, running), base)
  {
    var entries := r.entries + added;
    forall i | base <= i < |entries|
      ensures entries[i].account != [] && entries[i].account[0] in {'6', '7'} && -AmountLimit < entries[i].amount < AmountLimit
    {
      if i >= |r.entries| {
        assert entries[i] in added;
      }
    }
    forall e | e in entries
      ensures e.account in accounts
    {
      if e !in r.entries {
        assert e in added;
      }
    }
  }
}
