/** Model::create and Model::update of the data mapper: the text of the statement, the
    parameters beside it, and what the two mean together under positional binding. */
module SqlBuilder {
  import opened Wrappers

  datatype DataType = StringType | TextType | IntegerType | NumberType | BooleanType

  /** A mapped field: its column, and the C string or the integer behind its pointer. */
  datatype Field = Field(name: string, dataType: DataType, toDb: bool, text: string, number: int)

  /** values, paramLengths and paramFormats at one position: a text parameter, an integer in
      host order, or one in network order. */
  datatype Parameter = TextParameter(text: string) | HostInteger(value: int) | NetworkInteger(value: int)

  datatype Request = Request(sql: string, parameters: seq<Parameter>)

  // ---------- text ----------

  function DigitChar(d: int): char
    requires 0 <= d < 10
  {
    '0' + (d as char)
  }

  /** boost::lexical_cast<std::string> */
  function Decimal(n: nat): string {
    if n < 10 then [DigitChar(n)] else Decimal(n / 10) + [DigitChar(n % 10)]
  }

  function ReadNumber(s: string, value: nat): nat {
    if s == [] || !('0' <= s[0] <= '9') then value else ReadNumber(s[1..], 10 * value + (s[0] - '0') as int)
  }

  lemma {:induction false} NumberRead(n: nat, rest: string)
    ensures ReadNumber(Decimal(n) + rest, 0) == ReadNumber(rest, n)
  {
    if n < 10 {
      assert ([DigitChar(n)] + rest)[1..] == rest;
    } else {
      var last := [DigitChar(n % 10)];
      NumberRead(n / 10, last + rest);
      assert Decimal(n) + rest == Decimal(n / 10) + (last + rest);
      assert (last + rest)[1..] == rest;
    }
  }

  /** Items separated as the builder separates them. */
  ghost function Join(items: seq<string>): string {
    if items == [] then ""
    else
      var n := |items| - 1;
      Join(items[..n]) + (if n == 0 then "" else ", ") + items[n]
  }

  function Find(s: string, c: char): (i: nat)
    requires c in s
    ensures i < |s| && s[i] == c && c !in s[..i]
  {
    if s[0] == c then 0 else 1 + Find(s[1..], c)
  }

  function Trimmed(s: string): string {
    if s != [] && s[0] == ' ' then s[1..] else s
  }

  /** A list read at its commas. */
  function Split(s: string): seq<string>
    decreases |s|
  {
    if ',' !in s then [s]
    else
      var i := Find(s, ',');
      [s[..i]] + Split(Trimmed(s[i + 1..]))
  }

  predicate IsItem(s: string) {
    s != [] && ',' !in s && s[0] != ' '
  }

  lemma {:induction false} FindFirst(s: string, c: char, rest: string)
    requires c !in s
    ensures c in s + [c] + rest && Find(s + [c] + rest, c) == |s|
  {
    assert (s + [c] + rest)[|s|] == c;
    if s != [] {
      FindFirst(s[1..], c, rest);
      assert (s + [c] + rest)[1..] == s[1..] + [c] + rest;
    }
  }

  lemma SplitAt(head: string, rest: string)
    requires ',' !in head
    ensures Split(head + [','] + rest) == [head] + Split(Trimmed(rest))
  {
    FindFirst(head, ',', rest);
    var s := head + [','] + rest;
    assert s[..|head|] == head && s[|head| + 1..] == rest;
  }

  lemma {:induction false} SplitMore(s: string, item: string)
    requires IsItem(item)
    ensures Split(s + ", " + item) == Split(s) + [item]
    decreases |s|, 1
  {
    if ',' in s {
      var i := Find(s, ',');
      var head, rest := s[..i], s[i + 1..];
      assert s == head + [','] + rest;
      SplitMoreAfter(head, rest, item);
    } else {
      assert s + ", " + item == s + [','] + (" " + item);
      SplitAt(s, " " + item);
      assert Trimmed(" " + item) == item;
      assert Split(item) == [item];
    }
  }

  lemma {:induction false} SplitMoreAfter(head: string, rest: string, item: string)
    requires ',' !in head && IsItem(item)
    ensures Split(head + [','] + rest + ", " + item) == Split(head + [','] + rest) + [item]
    decreases |head| + 1 + |rest|, 0
  {
    hide Split, Find;
    calc {
      Split(head + [','] + rest + ", " + item);
      { assert head + [','] + rest + ", " + item == head + [','] + (rest + ", " + item); }
      Split(head + [','] + (rest + ", " + item));
      { SplitAt(head, rest + ", " + item); TrimmedMore(rest, item); }
      [head] + Split(Trimmed(rest) + ", " + item);
      { SplitMore(Trimmed(rest), item); }
      [head] + (Split(Trimmed(rest)) + [item]);
      [head] + Split(Trimmed(rest)) + [item];
      { SplitAt(head, rest); }
      Split(head + [','] + rest) + [item];
    }
  }

  lemma TrimmedMore(rest: string, item: string)
    ensures Trimmed(rest + ", " + item) == Trimmed(rest) + ", " + item
  {
    if rest != "" && rest[0] == ' ' {
      assert (rest + ", " + item)[1..] == rest[1..] + ", " + item;
    }
  }

  lemma {:induction false} SplitJoin(items: seq<string>)
    requires items != [] && forall i :: 0 <= i < |items| ==> IsItem(items[i])
    ensures Split(Join(items)) == items
  {
    hide Split;
    var n := |items| - 1;
    if n == 0 {
      assert Join(items) == items[0];
      SplitOne(items[0]);
    } else {
      SplitJoin(items[..n]);
      SplitMore(Join(items[..n]), items[n]);
    }
  }

  lemma SplitOne(item: string)
    requires ',' !in item
    ensures Split(item) == [item]
  {
  }

  // ---------- what is built ----------

  function Cast(t: DataType): string {
    match t
    case IntegerType => "::integer"
    case StringType => "::char(255)"
    case _ => "::text"
  }

  function Placeholder(position: nat, t: DataType): string {
    "$" + Decimal(position) + Cast(t)
  }

  function ParameterOf(f: Field): Parameter {
    if f.dataType.IntegerType? then HostInteger(f.number) else TextParameter(f.text)
  }

  function Persisted(fields: seq<Field>): seq<Field> {
    if fields == [] then []
    else
      var n := |fields| - 1;
      Persisted(fields[..n]) + if fields[n].toDb then [fields[n]] else []
  }

  predicate Supported(f: Field) {
    !f.dataType.NumberType? && !f.dataType.BooleanType?
  }

  ghost predicate AllSupported(fields: seq<Field>) {
    forall i :: 0 <= i < |fields| ==> Supported(fields[i])
  }

  ghost function Names(ps: seq<Field>): (names: seq<string>)
    ensures |names| == |ps| && forall i :: 0 <= i < |ps| ==> names[i] == ps[i].name
  {
    seq(|ps|, i requires 0 <= i < |ps| => ps[i].name)
  }

  ghost function Placeholders(ps: seq<Field>): (r: seq<string>)
    ensures |r| == |ps| && forall i :: 0 <= i < |ps| ==> r[i] == Placeholder(i + 1, ps[i].dataType)
  {
    seq(|ps|, i requires 0 <= i < |ps| => Placeholder(i + 1, ps[i].dataType))
  }

  ghost function Settings(ps: seq<Field>): (r: seq<string>)
    ensures |r| == |ps| && forall i :: 0 <= i < |ps| ==> r[i] == ps[i].name + "=" + Placeholder(i + 1, ps[i].dataType)
  {
    seq(|ps|, i requires 0 <= i < |ps| => ps[i].name + "=" + Placeholder(i + 1, ps[i].dataType))
  }

  ghost function Parameters(ps: seq<Field>): (r: seq<Parameter>)
    ensures |r| == |ps| && forall i :: 0 <= i < |ps| ==> r[i] == ParameterOf(ps[i])
  {
    seq(|ps|, i requires 0 <= i < |ps| => ParameterOf(ps[i]))
  }

  /** A list with a separator, if the guard is not empty. */
  function After(list: string, guard: string): string {
    if |guard| > 0 then list + ", " else list
  }

  /** fields_sql, values_sql and set_sql: a separator goes where fields_sql (set_sql) is not
      empty, whatever the names are. */
  ghost function ColumnText(ps: seq<Field>): string {
    if ps == [] then ""
    else
      var n := |ps| - 1;
      After(ColumnText(ps[..n]), ColumnText(ps[..n])) + ps[n].name
  }

  ghost function ValueText(ps: seq<Field>): string {
    if ps == [] then ""
    else
      var n := |ps| - 1;
      After(ValueText(ps[..n]), ColumnText(ps[..n])) + Placeholder(n + 1, ps[n].dataType)
  }

  ghost function SettingText(ps: seq<Field>): string {
    if ps == [] then ""
    else
      var n := |ps| - 1;
      After(SettingText(ps[..n]), SettingText(ps[..n])) + ps[n].name + "=" + Placeholder(n + 1, ps[n].dataType)
  }

  const INSERT: string := "insert into "
  const COLUMNS: string := " ("
  const VALUES: string := ") values ("
  const RETURNING: string := ") RETURNING (id);"
  const UPDATE: string := "update "
  const SET: string := " set "
  const WHERE: string := " where id="

  function InsertText(table: string, columns: string, values: string): string {
    INSERT + table + COLUMNS + columns + VALUES + values + RETURNING
  }

  function UpdateText(table: string, settings: string, idSlot: string): string {
    UPDATE + table + SET + settings + WHERE + idSlot
  }

  // ---------- what it means ----------

  predicate IsNameChar(c: char) {
    'a' <= c <= 'z' || 'A' <= c <= 'Z' || '0' <= c <= '9' || c == '_'
  }

  /** A plain name of a table or a column. */
  predicate IsName(s: string) {
    s != "" && forall i :: 0 <= i < |s| ==> IsNameChar(s[i])
  }

  ghost predicate WellNamed(fields: seq<Field>) {
    forall i :: 0 <= i < |fields| ==> IsName(fields[i].name)
  }

  /** The parameter an expression $n::type stands for. */
  function Bound(expression: string, parameters: seq<Parameter>): Option<Parameter> {
    if expression == [] || expression[0] != '$' then None
    else
      var n := ReadNumber(expression[1..], 0);
      if 1 <= n <= |parameters| then Some(parameters[n - 1]) else None
  }

  /** The text of the cast behind the number. */
  function AfterNumber(s: string): string {
    if s == [] || !('0' <= s[0] <= '9') then s else AfterNumber(s[1..])
  }

  function CastIn(expression: string): string {
    if expression == [] || expression[0] != '$' then "" else AfterNumber(expression[1..])
  }

  /** A column is given a parameter, read as what the cast says. */
  datatype Assignment = Assignment(column: string, value: Option<Parameter>, cast: string)

  /** An insert gives the k-th column the value of the k-th expression. */
  ghost function Inserted(columns: string, values: string, parameters: seq<Parameter>): seq<Assignment> {
    var cs, es := Split(columns), Split(values);
    if |cs| != |es| then []
    else seq(|cs|, i requires 0 <= i < |cs| => Assignment(cs[i], Bound(es[i], parameters), CastIn(es[i])))
  }

  function ReadSetting(setting: string, parameters: seq<Parameter>): Assignment {
    if '=' !in setting then Assignment(setting, None, "")
    else
      var i := Find(setting, '=');
      Assignment(setting[..i], Bound(setting[i + 1..], parameters), CastIn(setting[i + 1..]))
  }

  ghost function Updated(settings: string, parameters: seq<Parameter>): seq<Assignment> {
    var ss := Split(settings);
    seq(|ss|, i requires 0 <= i < |ss| => ReadSetting(ss[i], parameters))
  }

  /** A field's own value: an integer in binary, in host order, or a text. */
  ghost function OwnValue(f: Field): Assignment {
    match f.dataType
    case IntegerType => Assignment(f.name, Some(HostInteger(f.number)), "::integer")
    case StringType => Assignment(f.name, Some(TextParameter(f.text)), "::char(255)")
    case _ => Assignment(f.name, Some(TextParameter(f.text)), "::text")
  }

  ghost function OwnValues(ps: seq<Field>): (r: seq<Assignment>)
    ensures |r| == |ps| && forall i :: 0 <= i < |ps| ==> r[i] == OwnValue(ps[i])
  {
    seq(|ps|, i requires 0 <= i < |ps| => OwnValue(ps[i]))
  }

  lemma OwnBinding(f: Field)
    ensures OwnValue(f) == Assignment(f.name, Some(ParameterOf(f)), Cast(f.dataType))
  {
  }

  /** The text between the first left and the first right after it, and what follows. */
  function Bracketed(s: string, left: char, right: char): Option<(string, string)> {
    if left !in s then None
    else
      var rest := s[Find(s, left) + 1..];
      if right !in rest then None else Some((rest[..Find(rest, right)], rest[Find(rest, right)..]))
  }

  /** The text between the two ends of s. */
  function Between(s: string, first: string, last: string): Option<string> {
    if |first| + |last| <= |s| && first <= s && s[|s| - |last|..] == last then Some(s[|first|..|s| - |last|]) else None
  }

  /** The column list and the value list of an insert. */
  function InsertLists(sql: string): Option<(string, string)> {
    match Bracketed(sql, '(', ')')
    case None => None
    case Some(found) =>
      match Between(found.1, VALUES, RETURNING)
      case None => None
      case Some(values) => Some((found.0, values))
  }

  /** The last '=' of a text. */
  function FindLast(s: string, c: char): (i: nat)
    requires c in s
    ensures i < |s| && s[i] == c && c !in s[i + 1..]
  {
    if s[|s| - 1] == c then |s| - 1 else FindLast(s[..|s| - 1], c)
  }

  /** The settings and the id's expression of an update of the given table. */
  function UpdateLists(table: string, sql: string): Option<(string, string)> {
    if '=' !in sql then None
    else
      var i := FindLast(sql, '=');
      match Between(sql[..i + 1], UPDATE + table + SET, WHERE)
      case None => None
      case Some(settings) => Some((settings, sql[i + 1..]))
  }

  /** What the database is told to store by an insert. */
  ghost function Stored(r: Request): seq<Assignment> {
    match InsertLists(r.sql)
    case None => []
    case Some(lists) => Inserted(lists.0, lists.1, r.parameters)
  }

  /** What it is told to change by an update, and in the row of which id. */
  ghost function Changed(table: string, r: Request): (seq<Assignment>, Option<Parameter>) {
    match UpdateLists(table, r.sql)
    case None => ([], None)
    case Some(lists) => (Updated(lists.0, r.parameters), Bound(lists.1, r.parameters))
  }

  lemma PlaceholderBound(position: nat, t: DataType, parameters: seq<Parameter>)
    requires 1 <= position <= |parameters|
    ensures IsItem(Placeholder(position, t))
    ensures Bound(Placeholder(position, t), parameters) == Some(parameters[position - 1])
    ensures CastIn(Placeholder(position, t)) == Cast(t)
  {
    var number, cast := Decimal(position), Cast(t);
    NumberRead(position, cast);
    NumberPassed(position, cast);
    assert AfterNumber(cast) == cast;
    assert ReadNumber(cast, position) == position && ',' !in cast;
    DecimalIsDigits(position);
    hide Decimal, Cast, ReadNumber, AfterNumber;
    PlaceholderShape(position, t);
  }

  lemma PlaceholderShape(position: nat, t: DataType)
    ensures Placeholder(position, t) == ['$'] + (Decimal(position) + Cast(t))
    ensures Placeholder(position, t)[0] == '$' && Placeholder(position, t)[1..] == Decimal(position) + Cast(t)
  {
    hide Decimal, Cast;
  }

  lemma {:induction false} NumberPassed(n: nat, rest: string)
    ensures AfterNumber(Decimal(n) + rest) == AfterNumber(rest)
  {
    if n < 10 {
      assert ([DigitChar(n)] + rest)[1..] == rest;
    } else {
      var last := [DigitChar(n % 10)];
      NumberPassed(n / 10, last + rest);
      assert Decimal(n) + rest == Decimal(n / 10) + (last + rest);
      assert (last + rest)[1..] == rest;
    }
  }

  lemma {:induction false} DecimalIsDigits(n: nat)
    ensures forall i :: 0 <= i < |Decimal(n)| ==> '0' <= Decimal(n)[i] <= '9'
  {
    if n >= 10 {
      DecimalIsDigits(n / 10);
    }
  }

  lemma NameIsItem(s: string)
    requires IsName(s)
    ensures IsItem(s) && '=' !in s && '(' !in s && ')' !in s
  {
  }

  lemma ListsBind(ps: seq<Field>)
    requires ps != [] && WellNamed(ps)
    ensures Inserted(Join(Names(ps)), Join(Placeholders(ps)), Parameters(ps)) == OwnValues(ps)
  {
    hide Placeholder, Bound, Split, Join, IsItem, IsName, CastIn, OwnValue;
    forall i | 0 <= i < |ps|
      ensures IsItem(Placeholders(ps)[i])
      ensures Assignment(Names(ps)[i], Bound(Placeholders(ps)[i], Parameters(ps)), CastIn(Placeholders(ps)[i]))
           == OwnValue(ps[i])
    {
      PlaceholderBound(i + 1, ps[i].dataType, Parameters(ps));
      OwnBinding(ps[i]);
    }
    forall i | 0 <= i < |ps| ensures IsItem(Names(ps)[i]) {
      NameIsItem(ps[i].name);
    }
    SplitJoin(Names(ps));
    SplitJoin(Placeholders(ps));
  }

  /** Without brackets in the table's and the columns' names the lists can be cut out again. */
  lemma InsertCut(table: string, columns: string, values: string)
    requires '(' !in table && ')' !in columns
    ensures InsertLists(InsertText(table, columns, values)) == Some((columns, values))
  {
    var tail := VALUES + values + RETURNING;
    InsertShape(table, columns, values);
    assert '(' !in INSERT + table + " ";
    BracketedAt(INSERT + table + " ", columns, tail, '(', ')');
    BetweenEnds(VALUES, values, RETURNING);
  }

  lemma BracketedAt(before: string, inside: string, tail: string, left: char, right: char)
    requires left !in before && right !in inside && tail != "" && tail[0] == right
    ensures Bracketed(before + [left] + (inside + tail), left, right) == Some((inside, tail))
  {
    hide Find;
    var rest := inside + tail;
    FindFirst(before, left, rest);
    assert (before + [left] + rest)[|before| + 1..] == rest;
    assert rest == inside + [right] + tail[1..];
    FindFirst(inside, right, tail[1..]);
    assert rest[..|inside|] == inside && rest[|inside|..] == tail;
  }

  lemma InsertShape(table: string, columns: string, values: string)
    ensures InsertText(table, columns, values) ==
            INSERT + table + " " + ['('] + (columns + (VALUES + values + RETURNING))
  {
    assert COLUMNS == " " + ['('];
  }

  /** An insert, as a whole, assigns exactly the persisted columns, each its own field's value,
      and uses every parameter once. */
  lemma InsertBinds(table: string, ps: seq<Field>)
    requires ps != [] && WellNamed(ps) && IsName(table)
    ensures Stored(Request(InsertText(table, ColumnText(ps), ValueText(ps)), Parameters(ps))) == OwnValues(ps)
    ensures |Parameters(ps)| == |ps|
  {
    hide IsName, IsNameChar, Join, InsertText, InsertLists, Inserted;
    TextsJoin(ps);
    NameIsItem(table);
    NoBracket(ps);
    InsertCut(table, ColumnText(ps), ValueText(ps));
    ListsBind(ps);
  }

  lemma {:induction false} NoBracket(ps: seq<Field>)
    requires WellNamed(ps)
    ensures ')' !in ColumnText(ps)
  {
    if ps != [] {
      NoBracket(ps[..|ps| - 1]);
      NameIsItem(ps[|ps| - 1].name);
    }
  }

  lemma SettingRead(name: string, position: nat, t: DataType, parameters: seq<Parameter>)
    requires IsName(name) && 1 <= position <= |parameters|
    ensures IsItem(name + "=" + Placeholder(position, t))
    ensures ReadSetting(name + "=" + Placeholder(position, t), parameters) ==
            Assignment(name, Some(parameters[position - 1]), Cast(t))
  {
    hide Placeholder, Bound, CastIn;
    PlaceholderBound(position, t, parameters);
    var e := Placeholder(position, t);
    FindFirst(name, '=', e);
    var s := name + "=" + e;
    assert s == name + ['='] + e;
    assert s[..|name|] == name && s[|name| + 1..] == e;
  }

  lemma SettingsBind(ps: seq<Field>, id: int)
    requires ps != [] && WellNamed(ps)
    ensures Updated(Join(Settings(ps)), Parameters(ps) + [NetworkInteger(id)]) == OwnValues(ps)
    ensures Bound(Placeholder(|ps| + 1, IntegerType), Parameters(ps) + [NetworkInteger(id)]) == Some(NetworkInteger(id))
  {
    hide Placeholder, Bound, Split, Join, ReadSetting, IsName, OwnValue;
    var parameters := Parameters(ps) + [NetworkInteger(id)];
    forall i | 0 <= i < |ps|
      ensures IsItem(Settings(ps)[i])
      ensures ReadSetting(Settings(ps)[i], parameters) == OwnValue(ps[i])
    {
      OwnBinding(ps[i]);
      assert IsName(ps[i].name);
      SettingRead(ps[i].name, i + 1, ps[i].dataType, parameters);
    }
    SplitJoin(Settings(ps));
    PlaceholderBound(|ps| + 1, IntegerType, parameters);
  }

  lemma {:induction false} FindLastAfter(before: string, c: char, rest: string)
    requires c !in rest
    ensures c in before + [c] + rest && FindLast(before + [c] + rest, c) == |before|
    decreases |rest|
  {
    assert (before + [c] + rest)[|before|] == c;
    if rest == "" {
      assert before + [c] + rest == before + [c];
    } else {
      var n := |rest| - 1;
      FindLastAfter(before, c, rest[..n]);
      assert (before + [c] + rest)[..|before + [c] + rest| - 1] == before + [c] + rest[..n];
    }
  }

  lemma UpdateCut(table: string, settings: string, idSlot: string)
    requires '=' !in idSlot
    ensures UpdateLists(table, UpdateText(table, settings, idSlot)) == Some((settings, idSlot))
  {
    var first := UPDATE + table + SET;
    var before := first + settings + " where id";
    assert WHERE == " where id" + ['='];
    assert UpdateText(table, settings, idSlot) == before + ['='] + idSlot;
    FindLastAfter(before, '=', idSlot);
    var head := before + ['='];
    assert (head + idSlot)[..|before| + 1] == head && (head + idSlot)[|before| + 1..] == idSlot;
    assert head == first + settings + WHERE;
    BetweenEnds(first, settings, WHERE);
  }

  lemma BetweenEnds(first: string, middle: string, last: string)
    ensures Between(first + middle + last, first, last) == Some(middle)
  {
    var s := first + middle + last;
    assert s[..|first|] == first && s[|s| - |last|..] == last && s[|first|..|s| - |last|] == middle;
  }

  lemma PlaceholderText(position: nat, t: DataType)
    ensures '=' !in Placeholder(position, t)
  {
    DecimalIsDigits(position);
    assert '=' !in Cast(t);
  }

  /** An update, as a whole, assigns exactly the persisted columns, each its own field's value,
      and selects the row by the id in its last parameter. */
  lemma UpdateBinds(table: string, ps: seq<Field>, id: int)
    requires ps != [] && WellNamed(ps)
    ensures var sql := UpdateText(table, SettingText(ps), Placeholder(|ps| + 1, IntegerType));
      Changed(table, Request(sql, Parameters(ps) + [NetworkInteger(id)])) == (OwnValues(ps), Some(NetworkInteger(id)))
  {
    hide IsName, IsNameChar, Join, UpdateText, UpdateLists, Updated, Placeholder, Bound;
    TextsJoin(ps);
    PlaceholderText(|ps| + 1, IntegerType);
    UpdateCut(table, SettingText(ps), Placeholder(|ps| + 1, IntegerType));
    SettingsBind(ps, id);
  }

  // ---------- the builder ----------

  /** For plain names the texts are the lists with separators between the items. */
  lemma {:induction false} TextsJoin(ps: seq<Field>)
    requires WellNamed(ps)
    ensures ColumnText(ps) == Join(Names(ps)) && ValueText(ps) == Join(Placeholders(ps))
    ensures SettingText(ps) == Join(Settings(ps))
    ensures ps != [] ==> ColumnText(ps) != "" && SettingText(ps) != ""
  {
    if ps != [] {
      var n := |ps| - 1;
      TextsJoin(ps[..n]);
      assert IsName(ps[n].name);
      NotEmpty(ps, n);
      FirstItems(ps, n);
      LastItems(ps, n);
      hide IsName, IsNameChar, Join, Placeholder, ColumnText, ValueText, SettingText, After;
      hide Names, Placeholders, Settings;
      Grown(ColumnText(ps[..n]), ColumnText(ps[..n]), Names(ps));
      Grown(ValueText(ps[..n]), ColumnText(ps[..n]), Placeholders(ps));
      Grown(SettingText(ps[..n]), SettingText(ps[..n]), Settings(ps));
    }
  }

  /** One item more, with a separator before it unless it is the first. */
  lemma Grown(before: string, guard: string, items: seq<string>)
    requires items != [] && before == Join(items[..|items| - 1]) && (guard != "" <==> |items| > 1)
    ensures After(before, guard) + items[|items| - 1] == Join(items)
  {
    assert |items| == 1 ==> before == "" && before + "" == before;
  }

  lemma FirstItems(ps: seq<Field>, n: nat)
    requires n <= |ps|
    ensures Names(ps)[..n] == Names(ps[..n])
    ensures Placeholders(ps)[..n] == Placeholders(ps[..n])
    ensures Settings(ps)[..n] == Settings(ps[..n])
  {
    hide Placeholder;
  }

  lemma LastItems(ps: seq<Field>, n: nat)
    requires n + 1 == |ps|
    ensures ColumnText(ps) == After(ColumnText(ps[..n]), ColumnText(ps[..n])) + Names(ps)[n]
    ensures ValueText(ps) == After(ValueText(ps[..n]), ColumnText(ps[..n])) + Placeholders(ps)[n]
    ensures SettingText(ps) == After(SettingText(ps[..n]), SettingText(ps[..n])) + Settings(ps)[n]
    ensures ColumnText([]) == ValueText([]) == SettingText([]) == ""
  {
    var list, e := After(SettingText(ps[..n]), SettingText(ps[..n])), Placeholder(n + 1, ps[n].dataType);
    assert SettingText(ps) == list + ps[n].name + "=" + e;
    hide SettingText, Placeholder, After;
    Appended(list, ps[n].name, "=", e);
  }

  lemma NotEmpty(ps: seq<Field>, n: nat)
    requires n + 1 == |ps| && IsName(ps[n].name)
    ensures ColumnText(ps) != "" && SettingText(ps) != ""
  {
  }

  lemma Appended(list: string, name: string, sign: string, e: string)
    ensures list + name + sign + e == list + (name + sign + e)
  {
  }

  lemma TextsMore(ps: seq<Field>, f: Field)
    ensures ColumnText(ps + [f]) == After(ColumnText(ps), ColumnText(ps)) + f.name
    ensures ValueText(ps + [f]) == After(ValueText(ps), ColumnText(ps)) + Placeholder(|ps| + 1, f.dataType)
  {
    assert (ps + [f])[..|ps|] == ps;
  }

  lemma SettingMore(ps: seq<Field>, f: Field)
    ensures SettingText(ps + [f]) ==
            After(SettingText(ps), SettingText(ps)) + f.name + "=" + Placeholder(|ps| + 1, f.dataType)
  {
    assert (ps + [f])[..|ps|] == ps;
  }

  lemma ParametersMore(ps: seq<Field>, f: Field)
    ensures Parameters(ps + [f]) == Parameters(ps) + [ParameterOf(f)]
    ensures (ps + [f])[..|ps|] == ps
  {
  }

  lemma {:induction false} PersistedFields(fields: seq<Field>, x: nat)
    requires x <= |fields|
    ensures |Persisted(fields[..x])| <= |Persisted(fields)|
    ensures Persisted(fields[..x]) <= Persisted(fields)
    decreases |fields| - x
  {
    if x == |fields| {
      assert fields[..x] == fields;
    } else {
      PersistedFields(fields, x + 1);
      assert fields[..x + 1][..x] == fields[..x];
    }
  }

  /** The x-th field is the next persisted one, or none. */
  lemma PersistedStep(fields: seq<Field>, x: nat)
    requires x < |fields|
    ensures var ps := Persisted(fields[..x]);
      && (if fields[x].toDb then
            && Persisted(fields[..x + 1]) == ps + [fields[x]]
            && |ps| < |Persisted(fields)| && Persisted(fields)[|ps|] == fields[x]
          else Persisted(fields[..x + 1]) == ps)
      && |ps| <= |Persisted(fields)|
  {
    assert fields[..x + 1][..x] == fields[..x];
    PersistedFields(fields, x + 1);
    PersistedFields(fields, x);
  }

  /** The persisted fields are those marked so, each once and in their order. */
  lemma {:induction false} PersistedExact(fields: seq<Field>) returns (at: seq<nat>)
    ensures |at| == |Persisted(fields)|
    ensures forall i :: 0 <= i < |at| ==>
      at[i] < |fields| && fields[at[i]] == Persisted(fields)[i] && fields[at[i]].toDb
    ensures forall i, j :: 0 <= i < j < |at| ==> at[i] < at[j]
    ensures forall x :: 0 <= x < |fields| && fields[x].toDb ==> x in at
  {
    at := [];
    if fields != [] {
      var n := |fields| - 1;
      at := PersistedExact(fields[..n]);
      if fields[n].toDb {
        at := at + [n];
      }
    }
  }

  /** A request is built if every persisted field is a string, a text or an integer. */
  lemma SupportedExact(fields: seq<Field>)
    ensures AllSupported(Persisted(fields)) <==>
      forall x :: 0 <= x < |fields| && fields[x].toDb ==>
        fields[x].dataType.StringType? || fields[x].dataType.TextType? || fields[x].dataType.IntegerType?
  {
    var at := PersistedExact(fields);
    forall x | 0 <= x < |fields| && fields[x].toDb && AllSupported(Persisted(fields)) ensures Supported(fields[x]) {
      assert x in at;
      var i :| 0 <= i < |at| && at[i] == x;
      assert Supported(Persisted(fields)[i]);
    }
  }

  lemma NothingYet(fields: seq<Field>)
    ensures fields[..0] == [] && Persisted([]) == [] && Parameters([]) == [] && fields[..|fields|] == fields
    ensures ColumnText([]) == "" && ValueText([]) == "" && SettingText([]) == ""
  {
  }

  lemma SupportedMore(ps: seq<Field>, f: Field)
    requires AllSupported(ps)
    ensures AllSupported(ps + [f]) <==> Supported(f)
  {
    assert (ps + [f])[|ps|] == f;
  }

  lemma NoneUnsupported()
    ensures AllSupported([])
  {
  }

  lemma OneUnsupported(ps: seq<Field>, i: nat)
    requires i < |ps| && !Supported(ps[i])
    ensures !AllSupported(ps)
  {
  }

  class Model {
    const table: string
    var id: int
    var fields: seq<Field>

    constructor (table: string, fields: seq<Field>)
      ensures this.table == table && this.fields == fields && id == 0
    {
      this.table, this.fields, id := table, fields, 0;
    }

    method CountPersisted() returns (count: nat)
      ensures count == |Persisted(fields)|
    {
      count := 0;
      for x := 0 to |fields|
        invariant count == |Persisted(fields[..x])|
      {
        assert fields[..x + 1][..x] == fields[..x];
        if fields[x].toDb {
          count := count + 1;
        }
      }
      assert fields[..|fields|] == fields;
    }

    /** Columns, placeholders and parameters of an insert; None for an unsupported type. */
    method BuildInsert(values: array<Parameter>) returns (built: Option<(string, string)>)
      requires values.Length == |Persisted(fields)|
      modifies values
      ensures built.Some? <==> AllSupported(Persisted(fields))
      ensures built.Some? ==>
        && built.value == (ColumnText(Persisted(fields)), ValueText(Persisted(fields)))
        && values[..] == Parameters(Persisted(fields))
    {
      hide Placeholder, Cast, ColumnText, ValueText, Persisted, AllSupported, Parameters, ParameterOf;
      NothingYet(fields);
      NoneUnsupported();
      var fieldsSql, valuesSql, i := "", "", 0;
      for x := 0 to |fields|
        invariant i == |Persisted(fields[..x])| <= values.Length
        invariant AllSupported(Persisted(fields[..x]))
        invariant fieldsSql == ColumnText(Persisted(fields[..x])) && valuesSql == ValueText(Persisted(fields[..x]))
        invariant values[..i] == Parameters(Persisted(fields[..x]))
      {
        var f := fields[x];
        ghost var ps := Persisted(fields[..x]);
        PersistedStep(fields, x);
        if f.toDb {
          ParametersMore(ps, f);
          TextsMore(ps, f);
          SupportedMore(ps, f);
          if |fieldsSql| > 0 {
            fieldsSql := fieldsSql + ", ";
            valuesSql := valuesSql + ", ";
          }
          fieldsSql := fieldsSql + f.name;
          if !Supported(f) {
            OneUnsupported(Persisted(fields), i);
            return None;
          }
          valuesSql := valuesSql + Placeholder(i + 1, f.dataType);
          values[i] := ParameterOf(f);
          i := i + 1;
          assert values[..i] == values[..i - 1] + [values[i - 1]];
        }
      }
      return Some((fieldsSql, valuesSql));
    }

    /** Settings and parameters of an update; values has room for the id. */
    method BuildSettings(values: array<Parameter>) returns (built: Option<string>)
      requires values.Length == |Persisted(fields)| + 1
      modifies values
      ensures built.Some? <==> AllSupported(Persisted(fields))
      ensures built.Some? ==>
        && built.value == SettingText(Persisted(fields))
        && values[..values.Length - 1] == Parameters(Persisted(fields))
    {
      hide Placeholder, Cast, SettingText, Persisted, AllSupported, Parameters, ParameterOf;
      NothingYet(fields);
      NoneUnsupported();
      var setSql, i := "", 0;
      for x := 0 to |fields|
        invariant i == |Persisted(fields[..x])| < values.Length
        invariant AllSupported(Persisted(fields[..x]))
        invariant setSql == SettingText(Persisted(fields[..x]))
        invariant values[..i] == Parameters(Persisted(fields[..x]))
      {
        var f := fields[x];
        ghost var ps := Persisted(fields[..x]);
        PersistedStep(fields, x);
        if f.toDb {
          ParametersMore(ps, f);
          SettingMore(ps, f);
          SupportedMore(ps, f);
          if |setSql| > 0 {
            setSql := setSql + ", ";
          }
          assert setSql == After(SettingText(ps), SettingText(ps));
          hide After;
          if !Supported(f) {
            OneUnsupported(Persisted(fields), i);
            return None;
          }
          setSql := setSql + f.name + "=" + Placeholder(i + 1, f.dataType);
          values[i] := ParameterOf(f);
          i := i + 1;
          assert values[..i] == values[..i - 1] + [values[i - 1]];
        }
      }
      return Some(setSql);
    }

    /** Parameters: what the callbacks return and the id the database answers with, if it does. */
    method Create(beforeCreate: bool, reply: Option<int>, afterCreate: bool)
        returns (ok: bool, request: Option<Request>)
      modifies `id
      ensures request.Some? <==> beforeCreate && AllSupported(Persisted(fields))
      ensures var ps := Persisted(fields);
        request.Some? ==> request.value == Request(InsertText(table, ColumnText(ps), ValueText(ps)), Parameters(ps))
      ensures ok <==> request.Some? && reply.Some? && afterCreate
      ensures id == if request.Some? && reply.Some? then reply.value else old(id)
    {
      if !beforeCreate {
        return false, None;
      }
      var count := CountPersisted();
      var values := new Parameter[count](_ => HostInteger(0));
      var built := BuildInsert(values);
      if built.None? {
        return false, None;
      }
      var (fieldsSql, valuesSql) := built.value;
      var sql := "insert into " + table + " (" + fieldsSql + ") values (" + valuesSql + ") RETURNING (id);";
      request := Some(Request(sql, values[..]));
      if reply.None? {
        return false, request;
      }
      id := reply.value;
      ok := afterCreate;
    }

    method Update(beforeUpdate: bool, accepted: bool, afterUpdate: bool) returns (ok: bool, request: Option<Request>)
      ensures request.Some? <==> beforeUpdate && AllSupported(Persisted(fields))
      ensures var ps := Persisted(fields);
        request.Some? ==>
          request.value == Request(UpdateText(table, SettingText(ps), Placeholder(|ps| + 1, IntegerType)),
                                   Parameters(ps) + [NetworkInteger(id)])
      ensures ok <==> request.Some? && accepted && afterUpdate
    {
      hide Decimal, SettingText, Persisted, Parameters, AllSupported;
      if !beforeUpdate {
        return false, None;
      }
      var count := CountPersisted();
      count := count + 1;
      var values := new Parameter[count](_ => HostInteger(0));
      var built := BuildSettings(values);
      if built.None? {
        return false, None;
      }
      var last := count - 1;
      values[last] := NetworkInteger(id);
      var idParam := "$" + Decimal(count) + "::integer";
      var sql := "update " + table + " set " + built.value + " where id=" + idParam;
      assert values[..] == values[..last] + [values[last]];
      request := Some(Request(sql, values[..]));
      ok := accepted && afterUpdate;
    }
  }
}
