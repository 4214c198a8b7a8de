/** The text format of COPY: the encoder of driver/postgres/copy.go, and the reader that
    PostgreSQL's documentation of the format describes. */
module Copy {
  import opened Wrappers
  import opened Utf8
  import opened Numbers

  const TAB: Byte := 0x09
  const NEWLINE: Byte := 0x0A
  const BACKSLASH: Byte := 0x5C
  const NULL: Bytes := [BACKSLASH, 0x4E]
  const END_OF_DATA: Bytes := [BACKSLASH, 0x2E]

  /** A column value: nil, a bool, an integer of any width, or bytes (strings and all that
      is rendered as one). */
  datatype Field = Nil | Flag(b: bool) | Integer(n: int) | Text(s: Bytes)

  type Row = seq<Field>

  // ---------------------------------------------------------------- encoder

  /** The letter after the backslash, for the bytes that are escaped. */
  function Letter(b: Byte): (c: Option<Byte>) {
    if b == BACKSLASH then Some(BACKSLASH)
    else if b == 0x08 then Some(0x62)
    else if b == 0x0C then Some(0x66)
    else if b == NEWLINE then Some(0x6E)
    else if b == 0x0D then Some(0x72)
    else if b == TAB then Some(0x74)
    else if b == 0x0B then Some(0x76)
    else None
  }

  function EscapeByte(b: Byte): (e: Bytes) {
    if Letter(b).Some? then [BACKSLASH, Letter(b).value] else [b]
  }

  function Escape(s: Bytes): (e: Bytes) {
    if s == [] then [] else EscapeByte(s[0]) + Escape(s[1..])
  }

  /** The text of a column value. */
  function FieldText(f: Field): (e: Bytes) {
    match f
    case Nil => NULL
    case Flag(b) => if b then [0x74] else [0x66]
    case Integer(n) => if n < 0 then [MINUS] + Digits(-n) else Digits(n)
    case Text(s) => Escape(s)
  }

  /** Columns with a tab between them. */
  function Columns(row: Row): (e: Bytes) {
    if row == [] then []
    else if |row| == 1 then FieldText(row[0])
    else FieldText(row[0]) + ([TAB] + Columns(row[1..]))
  }

  function RowsText(rows: seq<Row>): (e: Bytes) {
    if rows == [] then [] else Columns(rows[0]) + ([NEWLINE] + RowsText(rows[1..]))
  }

  /** appendEscapedString and appendEscapedBytes. */
  method AppendEscaped(dst: Bytes, s: Bytes) returns (r: Bytes)
    ensures r == dst + Escape(s)
  {
    r := dst;
    for i := 0 to |s|
      invariant r + Escape(s[i..]) == dst + Escape(s)
    {
      ghost var was := r;
      r := r + EscapeByte(s[i]);
      assert s[i..][1..] == s[i + 1..];
      assert was + (EscapeByte(s[i]) + Escape(s[i + 1..])) == r + Escape(s[i + 1..]);
    }
  }

  method AppendField(dst: Bytes, f: Field) returns (r: Bytes)
    ensures r == dst + FieldText(f)
  {
    if f.Text? {
      r := AppendEscaped(dst, f.s);
    } else {
      r := dst + FieldText(f);
    }
  }

  /** What is still to be written of a row after i columns. */
  ghost function Left(row: Row, i: nat): (t: Bytes)
    requires i <= |row|
  {
    if 0 < i < |row| then [TAB] + Columns(row[i..]) else Columns(row[i..])
  }

  lemma ColumnsFirst(row: Row, i: nat)
    requires i < |row|
    ensures Columns(row[i..]) == FieldText(row[i]) + Left(row, i + 1)
  {
    assert row[i..][1..] == row[i + 1..] && row[i..][0] == row[i];
    if i + 1 == |row| {
      assert Left(row, i + 1) == [];
      assert FieldText(row[i]) + [] == FieldText(row[i]);
    }
  }

  lemma LeftStep(r: Bytes, row: Row, i: nat)
    requires i < |row|
    ensures var t := if i > 0 then r + [TAB] else r;
            r + Left(row, i) == t + FieldText(row[i]) + Left(row, i + 1)
  {
    ColumnsFirst(row, i);
    if i > 0 {
      Assoc(r, [TAB], Columns(row[i..]));
      Assoc(r + [TAB], FieldText(row[i]), Left(row, i + 1));
    } else {
      Assoc(r, FieldText(row[i]), Left(row, i + 1));
    }
  }

  // ---------------------------------------------------------------- reader

  /** The pieces of s between occurrences of a byte. */
  function Split(s: Bytes, sep: Byte): (p: seq<Bytes>)
    ensures |p| > 0
  {
    if s == [] then [[]]
    else
      var rest := Split(s[1..], sep);
      if s[0] == sep then [[]] + rest else [[s[0]] + rest[0]] + rest[1..]
  }

  /** Undoes the backslash escapes with a letter; any other character after a backslash
      stands for itself. Octal and hexadecimal escapes are not read. */
  function Unescape(e: Bytes): (s: Option<Bytes>) {
    if e == [] then Some([])
    else if e[0] != BACKSLASH then Prepend(e[0], Unescape(e[1..]))
    else if |e| == 1 || 0x30 <= e[1] < 0x38 || e[1] == 0x78 then None
    else Prepend(Escaped(e[1]), Unescape(e[2..]))
  }

  function Prepend(b: Byte, s: Option<Bytes>): (t: Option<Bytes>) {
    if s.None? then None else Some([b] + s.value)
  }

  function Escaped(c: Byte): (b: Byte) {
    if c == 0x62 then 0x08
    else if c == 0x66 then 0x0C
    else if c == 0x6E then NEWLINE
    else if c == 0x72 then 0x0D
    else if c == 0x74 then TAB
    else if c == 0x76 then 0x0B
    else c
  }

  /** The types a column can have. */
  datatype Type = Boolean | Integral | Textual

  /** A signed decimal integer. */
  function ReadInteger(s: Bytes): (n: Option<int>) {
    var neg := s != [] && s[0] == MINUS;
    var ds := if neg then s[1..] else s;
    if ds == [] || !AllDigits(ds) then None else Some(if neg then 0 - Number(ds) else Number(ds))
  }

  /** What PostgreSQL makes of the text of a column. */
  function Input(ty: Type, s: Bytes): (f: Option<Field>) {
    match ty
    case Boolean => if s == [0x74] then Some(Flag(true)) else if s == [0x66] then Some(Flag(false)) else None
    case Integral =>
      var n := ReadInteger(s);
      if n.None? then None else Some(Integer(n.value))
    case Textual => Some(Text(s))
  }

  /** A column: NULL, a value of its type, or malformed. */
  function ReadField(ty: Type, e: Bytes): (f: Option<Field>) {
    if e == NULL then Some(Nil)
    else
      var s := Unescape(e);
      if s.None? then None else Input(ty, s.value)
  }

  function ReadFields(tys: seq<Type>, es: seq<Bytes>): (r: Option<Row>) {
    if |es| != |tys| then None
    else if es == [] then Some([])
    else
      var f, rest := ReadField(tys[0], es[0]), ReadFields(tys[1..], es[1..]);
      if f.None? || rest.None? then None else Some([f.value] + rest.value)
  }

  function ReadLines(tyss: seq<seq<Type>>, ls: seq<Bytes>): (r: Option<seq<Row>>) {
    if |ls| != |tyss| then None
    else if ls == [] then Some([])
    else
      var row, rest := ReadFields(tyss[0], Split(ls[0], TAB)), ReadLines(tyss[1..], ls[1..]);
      if ls[0] == END_OF_DATA || row.None? || rest.None? then None else Some([row.value] + rest.value)
  }

  /** The rows of a text, each under the types of its columns. Lines are ended, not
      separated, by newlines. */
  function Read(tyss: seq<seq<Type>>, text: Bytes): (r: Option<seq<Row>>) {
    var ls := Split(text, NEWLINE);
    if ls[|ls| - 1] != [] then None else ReadLines(tyss, ls[..|ls| - 1])
  }

  /** A value that a column of the type can hold. */
  predicate IsOf(f: Field, ty: Type) {
    match f
    case Nil => true
    case Flag(_) => ty == Boolean
    case Integer(_) => ty == Integral
    case Text(_) => ty == Textual
  }

  predicate RowOf(row: Row, tys: seq<Type>) {
    |row| == |tys| && forall i :: 0 <= i < |row| ==> IsOf(row[i], tys[i])
  }

  predicate RowsOf(rows: seq<Row>, tyss: seq<seq<Type>>) {
    |rows| == |tyss| && forall i :: 0 <= i < |rows| ==> RowOf(rows[i], tyss[i])
  }

  // ---------------------------------------------------------------- round trip

  lemma {:induction false} SplitFirst(a: Bytes, sep: Byte, rest: Bytes)
    requires sep !in a
    ensures Split(a + ([sep] + rest), sep) == [a] + Split(rest, sep)
  {
    var s := a + ([sep] + rest);
    if a == [] {
      assert s[1..] == rest && s[0] == sep;
    } else {
      assert s[1..] == a[1..] + ([sep] + rest) && s[0] == a[0];
      SplitFirst(a[1..], sep, rest);
      assert [a[0]] + a[1..] == a;
    }
  }

  lemma {:induction false} SplitWhole(a: Bytes, sep: Byte)
    requires sep !in a
    ensures Split(a, sep) == [a]
  {
    if a != [] {
      SplitWhole(a[1..], sep);
      assert [a[0]] + a[1..] == a;
    }
  }

  lemma {:induction false} UnescapeEscaped(s: Bytes)
    ensures Unescape(Escape(s)) == Some(s)
    ensures TAB !in Escape(s) && NEWLINE !in Escape(s)
    ensures Escape(s) != NULL && Escape(s) != END_OF_DATA
  {
    if s != [] {
      UnescapeEscaped(s[1..]);
      var e, rest := EscapeByte(s[0]), Escape(s[1..]);
      assert (e + rest)[|e|..] == rest && (e + rest)[0] == e[0];
      assert |e| == 2 ==> (e + rest)[1] == e[1];
      assert [s[0]] + s[1..] == s;
    }
  }

  /** Text without special bytes is its own escaped form. */
  lemma {:induction false} EscapeNothing(s: Bytes)
    requires forall i :: 0 <= i < |s| ==> Letter(s[i]).None?
    ensures Escape(s) == s
  {
    if s != [] {
      EscapeNothing(s[1..]);
    }
  }

  lemma {:induction false} DigitsPlain(n: nat)
    ensures forall i :: 0 <= i < |Digits(n)| ==> Letter(Digits(n)[i]).None?
  {
    if n >= 10 {
      DigitsPlain(n / 10);
    }
  }

  lemma IntegerBack(n: int)
    ensures ReadInteger(FieldText(Integer(n))) == Some(n)
  {
    DigitsAre(if n < 0 then -n else n);
    ReadsDigits(n < 0, Digits(if n < 0 then -n else n));
  }

  lemma ReadsDigits(neg: bool, ds: Bytes)
    requires ds != [] && AllDigits(ds)
    ensures ReadInteger(if neg then [MINUS] + ds else ds) == Some(if neg then 0 - Number(ds) else Number(ds))
  {
    assert ([MINUS] + ds)[1..] == ds && IsDigit(ds[0]);
  }

  /** The text of a value without special bytes is what the reader unescapes. */
  lemma PlainBack(s: Bytes)
    requires forall i :: 0 <= i < |s| ==> Letter(s[i]).None?
    ensures Unescape(s) == Some(s) && TAB !in s && NEWLINE !in s && s != NULL && s != END_OF_DATA
  {
    EscapeNothing(s);
    UnescapeEscaped(s);
  }

  /** Every column value reads back as it is, NULL as NULL and nothing else as NULL. */
  lemma FieldBack(f: Field, ty: Type)
    requires IsOf(f, ty)
    ensures ReadField(ty, FieldText(f)) == Some(f)
    ensures TAB !in FieldText(f) && NEWLINE !in FieldText(f) && FieldText(f) != END_OF_DATA
  {
    match f
    case Nil =>
    case Text(s) => UnescapeEscaped(s);
    case Flag(b) => PlainBack(FieldText(f));
    case Integer(n) =>
      DigitsPlain(if n < 0 then -n else n);
      PlainBack(FieldText(f));
      IntegerBack(n);
  }

  lemma {:induction false} RowBack(row: Row, tys: seq<Type>)
    requires row != [] && RowOf(row, tys)
    ensures ReadFields(tys, Split(Columns(row), TAB)) == Some(row)
    ensures NEWLINE !in Columns(row) && Columns(row) != END_OF_DATA
    decreases |row|
  {
    FieldBack(row[0], tys[0]);
    var e := FieldText(row[0]);
    assert row == [row[0]] + row[1..] && tys == [tys[0]] + tys[1..];
    if |row| == 1 {
      SplitWhole(e, TAB);
      assert tys[1..] == [] && row[1..] == [] && [e] + [] == [e];
      FieldsCons(tys[0], [], e, [], row[0], []);
    } else {
      RowBack(row[1..], tys[1..]);
      SplitFirst(e, TAB, Columns(row[1..]));
      FieldsCons(tys[0], tys[1..], e, Split(Columns(row[1..]), TAB), row[0], row[1..]);
      assert TAB in Columns(row) by {
        assert Columns(row)[|e|] == TAB;
      }
    }
  }

  lemma FieldsCons(ty: Type, tys: seq<Type>, e: Bytes, es: seq<Bytes>, f: Field, row: Row)
    requires ReadField(ty, e) == Some(f) && ReadFields(tys, es) == Some(row)
    ensures ReadFields([ty] + tys, [e] + es) == Some([f] + row)
  {
    assert ([ty] + tys)[1..] == tys && ([e] + es)[1..] == es;
  }

  /** A row without columns has the text of a row with one empty column, which no reader of
      no columns takes. */
  lemma LineBack(row: Row, tys: seq<Type>)
    requires RowOf(row, tys)
    ensures ReadFields(tys, Split(Columns(row), TAB)) == if row == [] then None else Some(row)
    ensures NEWLINE !in Columns(row) && Columns(row) != END_OF_DATA
  {
    if row != [] {
      RowBack(row, tys);
    }
  }

  /** The lines of the text. */
  function LinesOf(rows: seq<Row>): (ls: seq<Bytes>)
    ensures |ls| == |rows|
  {
    if rows == [] then [] else [Columns(rows[0])] + LinesOf(rows[1..])
  }

  lemma RowsOfTail(rows: seq<Row>, tyss: seq<seq<Type>>)
    requires RowsOf(rows, tyss) && rows != []
    ensures RowOf(rows[0], tyss[0]) && RowsOf(rows[1..], tyss[1..])
  {
  }

  lemma {:induction false} SplitRows(rows: seq<Row>, tyss: seq<seq<Type>>)
    requires RowsOf(rows, tyss)
    ensures Split(RowsText(rows), NEWLINE) == LinesOf(rows) + [[]]
    decreases |rows|
  {
    if rows != [] {
      RowsOfTail(rows, tyss);
      SplitRows(rows[1..], tyss[1..]);
      LineBack(rows[0], tyss[0]);
      SplitFirst(Columns(rows[0]), NEWLINE, RowsText(rows[1..]));
      assert [Columns(rows[0])] + (LinesOf(rows[1..]) + [[]]) == LinesOf(rows) + [[]];
    }
  }

  lemma {:induction false} ReadRows(rows: seq<Row>, tyss: seq<seq<Type>>)
    requires RowsOf(rows, tyss)
    ensures ReadLines(tyss, LinesOf(rows)) == if [] in rows then None else Some(rows)
    decreases |rows|
  {
    if rows != [] {
      RowsOfTail(rows, tyss);
      ReadRows(rows[1..], tyss[1..]);
      LineBack(rows[0], tyss[0]);
      LinesCons(tyss[0], tyss[1..], Columns(rows[0]), LinesOf(rows[1..]));
      assert rows == [rows[0]] + rows[1..] && tyss == [tyss[0]] + tyss[1..];
    }
  }

  lemma LinesCons(tys: seq<Type>, tyss: seq<seq<Type>>, line: Bytes, ls: seq<Bytes>)
    requires line != END_OF_DATA && |ls| == |tyss|
    ensures var row, rest := ReadFields(tys, Split(line, TAB)), ReadLines(tyss, ls);
      ReadLines([tys] + tyss, [line] + ls) ==
        if row.None? || rest.None? then None else Some([row.value] + rest.value)
  {
    assert ([tys] + tyss)[1..] == tyss && ([line] + ls)[1..] == ls;
  }

  /** The rows read back as they were written, each value under its column's type, if and
      only if each row has a column. */
  lemma RoundTrip(rows: seq<Row>, tyss: seq<seq<Type>>)
    requires RowsOf(rows, tyss)
    ensures Read(tyss, RowsText(rows)) == Some(rows) <==> [] !in rows
  {
    SplitRows(rows, tyss);
    ReadRows(rows, tyss);
    var ls := LinesOf(rows) + [[]];
    assert ls[..|ls| - 1] == LinesOf(rows);
  }

  /** encodeTextRow: what it appends is one line, and the row again to any reader that knows
      the types of the columns. */
  method EncodeRow(dst: Bytes, row: Row) returns (r: Bytes)
    ensures r == dst + RowsText([row])
    ensures forall tys {:trigger RowOf(row, tys)} ::
      row != [] && RowOf(row, tys) ==> Read([tys], r[|dst|..]) == Some([row])
  {
    r := dst;
    assert row[0..] == row;
    for i := 0 to |row|
      invariant r + Left(row, i) == dst + Columns(row)
    {
      LeftStep(r, row, i);
      if i > 0 {
        r := r + [TAB];
      }
      r := AppendField(r, row[i]);
    }
    assert r + [] == r;
    r := r + [NEWLINE];
    OneRow(row);
    Assoc(dst, Columns(row), [NEWLINE]);
    assert r[|dst|..] == RowsText([row]);
    forall tys | row != [] && RowOf(row, tys) ensures Read([tys], RowsText([row])) == Some([row]) {
      RoundTrip([row], [tys]);
    }
  }

  lemma OneRow(row: Row)
    ensures RowsText([row]) == Columns(row) + [NEWLINE]
  {
    var none: seq<Row> := [];
    assert [row][1..] == none && [NEWLINE] + [] == [NEWLINE];
  }

  /** The marks of the format: \\N for NULL, a tab between columns, a newline after a row. */
  lemma FormatIs()
    ensures RowsText([[Nil, Flag(true)], [Text([0x09])]]) == [0x5C, 0x4E, 0x09, 0x74, 0x0A, 0x5C, 0x74, 0x0A]
  {
    var a, b: Row := [Nil, Flag(true)], [Text([0x09])];
    var none: seq<Row> := [];
    assert a[1..] == [Flag(true)] && Columns(a) == [0x5C, 0x4E, 0x09, 0x74];
    assert [0x09][1..] == [] && Escape([0x09]) == [0x5C, 0x74] && Columns(b) == [0x5C, 0x74];
    assert [a, b][1..] == [b] && [b][1..] == none;
    assert RowsText([b]) == [0x5C, 0x74, 0x0A];
  }

  /** A row without columns is read as a row with one empty column. */
  lemma EmptyRowConfused()
    ensures RowsText([[]]) == RowsText([[Text([])]]) && Read([[Textual]], RowsText([[]])) == Some([[Text([])]])
  {
    RoundTrip([[Text([])]], [[Textual]]);
  }
}
