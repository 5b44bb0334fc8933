/** The fragment of SQL that a smart filter compiles to: tokens, a parser with the usual
    precedences, and three-valued evaluation. */
module Sql {
  import opened Wrappers
  import Like

  datatype Column = Title | Artist | AlbumArtist | AlbumTitle | Composer | Genre

  /** A row of `tracks`; every text column may be null. */
  datatype Row = Row(
    title: Option<string>, artist: Option<string>, albumArtist: Option<string>,
    albumTitle: Option<string>, composer: Option<string>, genre: Option<string>)
  {
    function At(c: Column): Option<string> {
      match c
      case Title => title
      case Artist => artist
      case AlbumArtist => albumArtist
      case AlbumTitle => albumTitle
      case Composer => composer
      case Genre => genre
    }
  }

  datatype Token =
    | Open | Close | And | Or | Not | Is | Null | Equal | Unequal | LikeWord | Escape | Parameter
    | Name(column: Column)
    | Quoted(text: string)

  datatype Operator = Eq | Ne | LikeOp(escaping: bool) | NotLikeOp(escaping: bool)

  /** `parameter` is the position of the `?` among all of them. */
  datatype Expr =
    | NotNull(column: Column)
    | Compare(column: Column, op: Operator, parameter: nat)
    | Both(left: Expr, right: Expr)
    | Either(left: Expr, right: Expr)

  // Parsing: an `OR` of `AND`s of terms. A parser starts at token `i`, with `p` parameters before it.

  datatype Parse = Parse(expr: Expr, next: nat, parameters: nat)

  predicate TokenAt(t: seq<Token>, i: nat, k: Token) { i < |t| && t[i] == k }

  function ParseOr(t: seq<Token>, i: nat, p: nat): (r: Option<Parse>)
    ensures r.Some? ==> i < r.value.next <= |t|
    decreases |t| - i, 5
  {
    if i > |t| then None
    else
      match ParseAnd(t, i, p)
      case None => None
      case Some(l) => OrTail(t, l)
  }

  function OrTail(t: seq<Token>, l: Parse): (r: Option<Parse>)
    requires l.next <= |t|
    ensures r.Some? ==> l.next <= r.value.next <= |t|
    decreases |t| - l.next, 4
  {
    if !TokenAt(t, l.next, Or) then Some(l)
    else
      match ParseAnd(t, l.next + 1, l.parameters)
      case None => None
      case Some(r) => OrTail(t, r.(expr := Either(l.expr, r.expr)))
  }

  function ParseAnd(t: seq<Token>, i: nat, p: nat): (r: Option<Parse>)
    ensures r.Some? ==> i < r.value.next <= |t|
    decreases |t| - i, 3
  {
    if i > |t| then None
    else
      match ParseTerm(t, i, p)
      case None => None
      case Some(l) => AndTail(t, l)
  }

  function AndTail(t: seq<Token>, l: Parse): (r: Option<Parse>)
    requires l.next <= |t|
    ensures r.Some? ==> l.next <= r.value.next <= |t|
    decreases |t| - l.next, 2
  {
    if !TokenAt(t, l.next, And) then Some(l)
    else
      match ParseTerm(t, l.next + 1, l.parameters)
      case None => None
      case Some(r) => AndTail(t, r.(expr := Both(l.expr, r.expr)))
  }

  function ParseTerm(t: seq<Token>, i: nat, p: nat): (r: Option<Parse>)
    ensures r.Some? ==> i < r.value.next <= |t|
    decreases |t| - i, 1
  {
    if i >= |t| then None
    else if t[i] == Open then
      match ParseOr(t, i + 1, p)
      case None => None
      case Some(inner) => if TokenAt(t, inner.next, Close) then Some(inner.(next := inner.next + 1)) else None
    else if t[i].Name? then
      if TokenAt(t, i + 1, Is) then
        if TokenAt(t, i + 2, Not) && TokenAt(t, i + 3, Null) then Some(Parse(NotNull(t[i].column), i + 4, p)) else None
      else if TokenAt(t, i + 1, Equal) && TokenAt(t, i + 2, Parameter) then
        Some(Parse(Compare(t[i].column, Eq, p), i + 3, p + 1))
      else if TokenAt(t, i + 1, Unequal) && TokenAt(t, i + 2, Parameter) then
        Some(Parse(Compare(t[i].column, Ne, p), i + 3, p + 1))
      else if TokenAt(t, i + 1, LikeWord) && TokenAt(t, i + 2, Parameter) then
        EscapeTail(t, t[i].column, false, i + 3, p)
      else if TokenAt(t, i + 1, Not) && TokenAt(t, i + 2, LikeWord) && TokenAt(t, i + 3, Parameter) then
        EscapeTail(t, t[i].column, true, i + 4, p)
      else None
    else None
  }

  function EscapeTail(t: seq<Token>, column: Column, negated: bool, i: nat, p: nat): (r: Option<Parse>)
    requires i <= |t|
    ensures r.Some? ==> i <= r.value.next <= |t|
  {
    var escaping := TokenAt(t, i, Escape);
    if escaping && !TokenAt(t, i + 1, Quoted([Like.BACKSLASH])) then None
    else
      Some(Parse(
        Compare(column, if negated then NotLikeOp(escaping) else LikeOp(escaping), p),
        if escaping then i + 2 else i, p + 1))
  }

  // Evaluation.

  datatype Truth = True | False | Unknown

  function Of(b: bool): Truth { if b then True else False }

  function And3(a: Truth, b: Truth): Truth {
    if a == False || b == False then False else if a == True && b == True then True else Unknown
  }

  function Or3(a: Truth, b: Truth): Truth {
    if a == True || b == True then True else if a == False && b == False then False else Unknown
  }

  predicate CompareText(op: Operator, text: string, operand: string) {
    match op
    case Eq => text == operand
    case Ne => text != operand
    case LikeOp(escaping) => Like.Matches(operand, escaping, text)
    case NotLikeOp(escaping) => !Like.Matches(operand, escaping, text)
  }

  predicate Bound(e: Expr, n: nat) {
    match e
    case NotNull(_) => true
    case Compare(_, _, p) => p < n
    case Both(l, r) => Bound(l, n) && Bound(r, n)
    case Either(l, r) => Bound(l, n) && Bound(r, n)
  }

  function Evaluate(e: Expr, row: Row, parameters: seq<string>): Truth
    requires Bound(e, |parameters|)
  {
    match e
    case NotNull(c) => Of(row.At(c).Some?)
    case Compare(c, op, p) => (
      match row.At(c)
      case None => Unknown
      case Some(text) => Of(CompareText(op, text, parameters[p]))
    )
    case Both(l, r) => And3(Evaluate(l, row, parameters), Evaluate(r, row, parameters))
    case Either(l, r) => Or3(Evaluate(l, row, parameters), Evaluate(r, row, parameters))
  }

  datatype SqlError = SyntaxError | WrongParameterCount

  function Keep(e: Expr, parameters: seq<string>, table: seq<Row>): seq<Row>
    requires Bound(e, |parameters|)
  {
    if table == [] then []
    else
      var kept := Keep(e, parameters, table[..|table| - 1]);
      var row := table[|table| - 1];
      if Evaluate(e, row, parameters) == True then kept + [row] else kept
  }

  /** The rows for which the clause is true. */
  function Select(clause: seq<Token>, parameters: seq<string>, table: seq<Row>): Result<seq<Row>, SqlError> {
    match ParseOr(clause, 0, 0)
    case None => Err(SyntaxError)
    case Some(parsed) =>
      if parsed.next != |clause| then Err(SyntaxError)
      else if parsed.parameters != |parameters| || !Bound(parsed.expr, |parameters|) then Err(WrongParameterCount)
      else Ok(Keep(parsed.expr, parameters, table))
  }
}

/** Smart playlists: filters over the tracks, compiled to a `WHERE` clause. */
module SmartFilter {
  import opened Wrappers
  import Like
  import Sql

  datatype Field = Title | Artist | AlbumArtist | Album | Composer | Genre

  datatype Operator = Equals | NotEquals | Contains | NotContains | StartsWith | EndsWith

  datatype Condition = Condition(field: Field, op: Operator, value: string)

  datatype MatchMode = All | Any

  datatype Filter = Filter(conditions: seq<Condition>, matchMode: MatchMode)

  // What a filter means.

  function FieldOf(row: Sql.Row, f: Field): Option<string> {
    match f
    case Title => row.title
    case Artist => row.artist
    case AlbumArtist => row.albumArtist
    case Album => row.albumTitle
    case Composer => row.composer
    case Genre => row.genre
  }

  ghost predicate TextHolds(op: Operator, text: string, value: string) {
    match op
    case Equals => text == value
    case NotEquals => text != value
    case Contains => Like.Contains(text, value)
    case NotContains => !Like.Contains(text, value)
    case StartsWith => Like.StartsWith(text, value)
    case EndsWith => Like.EndsWith(text, value)
  }

  /** No condition holds of a missing field, not even a negative one. */
  ghost predicate Holds(c: Condition, row: Sql.Row) {
    var field := FieldOf(row, c.field);
    field.Some? && TextHolds(c.op, field.value, c.value)
  }

  /** A filter without conditions accepts nothing. */
  ghost predicate Accepts(f: Filter, row: Sql.Row) {
    && f.conditions != []
    && match f.matchMode
       case All => forall c <- f.conditions :: Holds(c, row)
       case Any => exists c <- f.conditions :: Holds(c, row)
  }

  ghost function Accepted(f: Filter, table: seq<Sql.Row>): seq<Sql.Row> {
    if table == [] then []
    else
      var rows := Accepted(f, table[..|table| - 1]);
      var row := table[|table| - 1];
      if Accepts(f, row) then rows + [row] else rows
  }

  // The compiler.

  function FieldColumn(f: Field): Sql.Column {
    match f
    case Title => Sql.Column.Title
    case Artist => Sql.Column.Artist
    case AlbumArtist => Sql.Column.AlbumArtist
    case Album => Sql.Column.AlbumTitle
    case Composer => Sql.Column.Composer
    case Genre => Sql.Column.Genre
  }

  predicate UsesLike(op: Operator) {
    op != Equals && op != NotEquals
  }

  function OperatorTokens(op: Operator): seq<Sql.Token> {
    match op
    case Equals => [Sql.Equal]
    case NotEquals => [Sql.Unequal]
    case NotContains => [Sql.Not, Sql.LikeWord]
    case _ => [Sql.LikeWord]
  }

  function BindValue(c: Condition): string {
    match c.op
    case Equals => c.value
    case NotEquals => c.value
    case Contains => "%" + Like.Escaped(c.value) + "%"
    case NotContains => "%" + Like.Escaped(c.value) + "%"
    case StartsWith => Like.Escaped(c.value) + "%"
    case EndsWith => "%" + Like.Escaped(c.value)
  }

  function EscapeClause(op: Operator): seq<Sql.Token> {
    if UsesLike(op) then [Sql.Escape, Sql.Quoted([Like.BACKSLASH])] else []
  }

  /** `(column IS NOT NULL AND column <op> ?<escape>)` */
  function WherePart(c: Condition): seq<Sql.Token> {
    var name := Sql.Name(FieldColumn(c.field));
    [Sql.Open, name, Sql.Is, Sql.Not, Sql.Null, Sql.And, name]
    + OperatorTokens(c.op) + [Sql.Parameter] + EscapeClause(c.op) + [Sql.Close]
  }

  function Joiner(mode: MatchMode): Sql.Token { if mode == All then Sql.And else Sql.Or }

  /** The parts of the first n conditions, joined. */
  function Clause(f: Filter, n: nat): (t: seq<Sql.Token>)
    requires n <= |f.conditions|
  {
    if n == 0 then []
    else if n == 1 then WherePart(f.conditions[0])
    else Clause(f, n - 1) + [Joiner(f.matchMode)] + WherePart(f.conditions[n - 1])
  }

  function BindValues(cs: seq<Condition>): (values: seq<string>)
    ensures |values| == |cs|
  {
    seq(|cs|, i requires 0 <= i < |cs| => BindValue(cs[i]))
  }

  function Join(parts: seq<seq<Sql.Token>>, joiner: Sql.Token): seq<Sql.Token> {
    if parts == [] then []
    else if |parts| == 1 then parts[0]
    else Join(parts[..|parts| - 1], joiner) + [joiner] + parts[|parts| - 1]
  }

  lemma {:induction false} JoinedParts(f: Filter, n: nat, parts: seq<seq<Sql.Token>>)
    requires n <= |f.conditions| && |parts| == n
    requires forall i :: 0 <= i < n ==> parts[i] == WherePart(f.conditions[i])
    ensures Join(parts, Joiner(f.matchMode)) == Clause(f, n)
    decreases n
  {
    hide WherePart;
    if n > 1 {
      JoinedParts(f, n - 1, parts[..n - 1]);
    }
  }

  /** The parameter of a condition: its value, or a pattern with the value escaped in it. */
  method BindCondition(c: Condition) returns (value: string)
    ensures value == BindValue(c)
  {
    if !UsesLike(c.op) {
      return c.value;
    }
    var escaped := Like.EscapeLike(c.value);
    match c.op {
      case StartsWith => value := escaped + "%";
      case EndsWith => value := "%" + escaped;
      case _ => value := "%" + escaped + "%";
    }
  }

  method EvaluateSmartFilter(f: Filter, table: seq<Sql.Row>) returns (r: Result<seq<Sql.Row>, Sql.SqlError>)
    ensures r == Ok(Accepted(f, table))
  {
    hide *;
    if |f.conditions| == 0 {
      EmptyFilter(f, table);
      return Ok([]);
    }
    var parts: seq<seq<Sql.Token>>, values: seq<string> := [], [];
    for i := 0 to |f.conditions|
      invariant |parts| == |values| == i
      invariant forall k :: 0 <= k < i ==> parts[k] == WherePart(f.conditions[k])
      invariant forall k :: 0 <= k < i ==> values[k] == BindValue(f.conditions[k])
    {
      var part := WherePart(f.conditions[i]);
      var value := BindCondition(f.conditions[i]);
      parts, values := parts + [part], values + [value];
    }
    var clause := Join(parts, Joiner(f.matchMode));
    JoinedParts(f, |parts|, parts);
    ValuesAre(f.conditions, values);
    r := Sql.Select(clause, values, table);
    ClauseSelects(f, table);
  }

  lemma ValuesAre(cs: seq<Condition>, values: seq<string>)
    requires |values| == |cs| && forall k :: 0 <= k < |cs| ==> values[k] == BindValue(cs[k])
    ensures values == BindValues(cs)
  {
    hide BindValue;
  }

  lemma {:induction false} EmptyFilter(f: Filter, table: seq<Sql.Row>)
    requires f.conditions == []
    ensures Accepted(f, table) == []
    decreases |table|
  {
    if table != [] {
      EmptyFilter(f, table[..|table| - 1]);
    }
  }

  // The clause parses to what was meant.

  function PartExpr(c: Condition, p: nat): Sql.Expr {
    var column := FieldColumn(c.field);
    var op := match c.op
      case Equals => Sql.Eq
      case NotEquals => Sql.Ne
      case NotContains => Sql.NotLikeOp(true)
      case _ => Sql.LikeOp(true);
    Sql.Both(Sql.NotNull(column), Sql.Compare(column, op, p))
  }

  function ClauseExpr(f: Filter, n: nat): Sql.Expr
    requires 0 < n <= |f.conditions|
  {
    var part := PartExpr(f.conditions[n - 1], n - 1);
    if n == 1 then part
    else if f.matchMode == All then Sql.Both(ClauseExpr(f, n - 1), part)
    else Sql.Either(ClauseExpr(f, n - 1), part)
  }

  ghost predicate StandsAt(t: seq<Sql.Token>, i: nat, part: seq<Sql.Token>) {
    i + |part| <= |t| && forall k :: 0 <= k < |part| ==> t[i + k] == part[k]
  }

  /** The comparison inside a part. */
  lemma ComparisonParses(t: seq<Sql.Token>, i: nat, c: Condition, p: nat)
    requires StandsAt(t, i, WherePart(c))
    ensures Sql.ParseTerm(t, i + 6, p) == Some(Sql.Parse(PartExpr(c, p).right, i + |WherePart(c)| - 1, p + 1))
  {
    hide Sql.ParseOr;
    var part := WherePart(c);
    var k := 7 + |OperatorTokens(c.op)|;
    assert part[k] == Sql.Parameter && t[i + k] == part[k];
    assert t[i + 6] == part[6] && t[i + 7] == part[7] && t[i + 8] == part[8] && t[i + 9] == part[9];
    assert t[i + k + 1] == part[k + 1];
    if UsesLike(c.op) {
      assert t[i + k + 2] == part[k + 2];
    }
  }

  /** The tokens around the comparison. */
  lemma PartTokens(t: seq<Sql.Token>, i: nat, c: Condition)
    requires StandsAt(t, i, WherePart(c))
    ensures i + |WherePart(c)| <= |t|
    ensures Sql.TokenAt(t, i, Sql.Open) && Sql.TokenAt(t, i + 5, Sql.And)
    ensures Sql.TokenAt(t, i + 1, Sql.Name(FieldColumn(c.field))) && Sql.TokenAt(t, i + 2, Sql.Is)
    ensures Sql.TokenAt(t, i + 3, Sql.Not) && Sql.TokenAt(t, i + 4, Sql.Null)
    ensures |WherePart(c)| > 6 && Sql.TokenAt(t, i + |WherePart(c)| - 1, Sql.Close)
  {
    var part := WherePart(c);
    var n := |part|;
    assert t[i + 0] == part[0] && t[i + 1] == part[1] && t[i + 2] == part[2] && t[i + 3] == part[3];
    assert t[i + 4] == part[4] && t[i + 5] == part[5] && t[i + (n - 1)] == part[n - 1];
  }

  /** What is between the parentheses. */
  lemma InnerParses(t: seq<Sql.Token>, i: nat, c: Condition, p: nat)
    requires StandsAt(t, i, WherePart(c))
    ensures Sql.ParseAnd(t, i + 1, p) == Some(Sql.Parse(PartExpr(c, p), i + |WherePart(c)| - 1, p + 1))
  {
    PartTokens(t, i, c);
    ComparisonParses(t, i, c, p);
    hide WherePart, StandsAt, Sql.ParseOr, Sql.EscapeTail;
    var left := Sql.Parse(PartExpr(c, p).left, i + 5, p);
    assert Sql.ParseTerm(t, i + 1, p) == Some(left);
    hide Sql.ParseTerm, PartExpr;
    var both := Sql.Parse(PartExpr(c, p), i + |WherePart(c)| - 1, p + 1);
    assert Sql.AndTail(t, both) == Some(both);
    assert Sql.AndTail(t, left) == Some(both);
  }

  lemma PartParses(t: seq<Sql.Token>, i: nat, c: Condition, p: nat)
    requires StandsAt(t, i, WherePart(c))
    ensures Sql.ParseTerm(t, i, p) == Some(Sql.Parse(PartExpr(c, p), i + |WherePart(c)|, p + 1))
  {
    PartTokens(t, i, c);
    InnerParses(t, i, c, p);
    hide WherePart, StandsAt, PartExpr, Sql.ParseAnd, Sql.EscapeTail;
    var both := Sql.Parse(PartExpr(c, p), i + |WherePart(c)| - 1, p + 1);
    assert Sql.OrTail(t, both) == Some(both);
    assert Sql.ParseOr(t, i + 1, p) == Some(both);
  }

  /** Where the n-th part stands. */
  function PartStart(f: Filter, n: nat): nat
    requires n < |f.conditions|
  {
    if n == 0 then 0 else |Clause(f, n)| + 1
  }

  lemma StandsAtEnd(t: seq<Sql.Token>, part: seq<Sql.Token>)
    ensures StandsAt(t + part, |t|, part)
  {
  }

  lemma StillStands(t: seq<Sql.Token>, more: seq<Sql.Token>, i: nat, part: seq<Sql.Token>)
    requires StandsAt(t, i, part)
    ensures StandsAt(t + more, i, part)
  {
  }

  lemma {:induction false} PartsStand(f: Filter, n: nat, count: nat)
    requires n < count <= |f.conditions|
    ensures StandsAt(Clause(f, count), PartStart(f, n), WherePart(f.conditions[n]))
    ensures n > 0 ==> Sql.TokenAt(Clause(f, count), |Clause(f, n)|, Joiner(f.matchMode))
    ensures PartStart(f, n) + |WherePart(f.conditions[n])| == |Clause(f, n + 1)|
    decreases count
  {
    hide WherePart, Joiner, StandsAt;
    var joiner, last := [Joiner(f.matchMode)], WherePart(f.conditions[count - 1]);
    if count == 1 {
      StandsAtEnd([], last);
      assert [] + last == last;
    } else if n + 1 == count {
      StandsAtEnd(Clause(f, n) + joiner, last);
    } else {
      PartsStand(f, n, count - 1);
      StillStands(Clause(f, count - 1), joiner + last, PartStart(f, n), WherePart(f.conditions[n]));
      assert Clause(f, count - 1) + (joiner + last) == Clause(f, count);
    }
  }

  lemma {:induction false} AndsParse(f: Filter, n: nat)
    requires f.matchMode == All && 0 < n <= |f.conditions|
    ensures var t := Clause(f, |f.conditions|);
      |Clause(f, n)| <= |t| && Sql.AndTail(t, Sql.Parse(ClauseExpr(f, n), |Clause(f, n)|, n))
        == Some(Sql.Parse(ClauseExpr(f, |f.conditions|), |t|, |f.conditions|))
    decreases |f.conditions| - n
  {
    hide WherePart, PartExpr, Sql.ParseTerm, Clause;
    var count := |f.conditions|;
    if n < count {
      PartsStand(f, n, count);
      PartParses(Clause(f, count), PartStart(f, n), f.conditions[n], n);
      AndsParse(f, n + 1);
    }
  }

  lemma {:induction false} OrsParse(f: Filter, n: nat)
    requires f.matchMode == Any && 0 < n <= |f.conditions|
    ensures var t := Clause(f, |f.conditions|);
      |Clause(f, n)| <= |t| && Sql.OrTail(t, Sql.Parse(ClauseExpr(f, n), |Clause(f, n)|, n))
        == Some(Sql.Parse(ClauseExpr(f, |f.conditions|), |t|, |f.conditions|))
    decreases |f.conditions| - n
  {
    hide WherePart, PartExpr, Sql.ParseTerm, Clause;
    var count := |f.conditions|;
    if n < count {
      PartsStand(f, n, count);
      OredPartParses(f, n);
      OrsParse(f, n + 1);
    }
  }

  lemma OredPartParses(f: Filter, n: nat)
    requires f.matchMode == Any && n < |f.conditions|
    ensures Sql.ParseAnd(Clause(f, |f.conditions|), PartStart(f, n), n)
      == Some(Sql.Parse(PartExpr(f.conditions[n], n), |Clause(f, n + 1)|, n + 1))
  {
    hide WherePart, PartExpr, Sql.ParseTerm, Clause;
    var count := |f.conditions|;
    PartsStand(f, n, count);
    PartParses(Clause(f, count), PartStart(f, n), f.conditions[n], n);
    if n + 1 < count {
      PartsStand(f, n + 1, count);
    }
  }

  /** The clause reads as its parts joined left to right, the n-th part using the n-th parameter. */
  lemma ClauseParses(f: Filter)
    requires f.conditions != []
    ensures var t := Clause(f, |f.conditions|);
      Sql.ParseOr(t, 0, 0) == Some(Sql.Parse(ClauseExpr(f, |f.conditions|), |t|, |f.conditions|))
  {
    hide WherePart, PartExpr, Sql.ParseTerm, Clause;
    PartsStand(f, 0, |f.conditions|);
    if f.matchMode == All {
      PartParses(Clause(f, |f.conditions|), 0, f.conditions[0], 0);
      AndsParse(f, 1);
    } else {
      OredPartParses(f, 0);
      OrsParse(f, 1);
    }
  }

  // The clause means what the filter means.

  lemma {:induction false} ClauseIsBound(f: Filter, n: nat)
    requires 0 < n <= |f.conditions|
    ensures Sql.Bound(ClauseExpr(f, n), |f.conditions|)
  {
    if n > 1 {
      ClauseIsBound(f, n - 1);
    }
  }

  lemma OperatorMeans(c: Condition, text: string, p: nat)
    ensures Sql.CompareText(PartExpr(c, p).right.op, text, BindValue(c)) <==> TextHolds(c.op, text, c.value)
  {
    hide Like.Matches, Like.Contains, Like.StartsWith, Like.EndsWith, Like.Escaped;
    Like.ContainsPattern(c.value, text);
    Like.StartsPattern(c.value, text);
    Like.EndsPattern(c.value, text);
  }

  /** A part is true where its condition holds, and false where it does not: it is never unknown. */
  lemma PartMeans(c: Condition, row: Sql.Row, p: nat, values: seq<string>)
    requires p < |values| && values[p] == BindValue(c)
    ensures Sql.Evaluate(PartExpr(c, p), row, values) == if Holds(c, row) then Sql.True else Sql.False
  {
    hide TextHolds, BindValue, Sql.CompareText;
    var field := FieldOf(row, c.field);
    assert row.At(FieldColumn(c.field)) == field;
    if field.Some? {
      OperatorMeans(c, field.value, p);
    }
  }

  lemma {:induction false} PartsMean(f: Filter, n: nat, row: Sql.Row)
    requires 0 < n <= |f.conditions| && Sql.Bound(ClauseExpr(f, n), |f.conditions|)
    ensures Sql.Evaluate(ClauseExpr(f, n), row, BindValues(f.conditions)) ==
      if Accepts(f.(conditions := f.conditions[..n]), row) then Sql.True else Sql.False
    decreases n
  {
    hide Holds, BindValue, PartExpr;
    var cs := f.conditions;
    PartMeans(cs[n - 1], row, n - 1, BindValues(cs));
    assert cs[..n] == cs[..n - 1] + [cs[n - 1]];
    if n > 1 {
      PartsMean(f, n - 1, row);
      assert cs[n - 1] in cs[..n];
    } else {
      assert cs[..1] == [cs[0]];
    }
  }

  /** The clause with its parameters is true of a row exactly when the filter accepts it, and false otherwise. */
  lemma ClauseMeans(f: Filter, row: Sql.Row)
    requires f.conditions != []
    ensures Sql.Bound(ClauseExpr(f, |f.conditions|), |f.conditions|)
    ensures Sql.Evaluate(ClauseExpr(f, |f.conditions|), row, BindValues(f.conditions)) ==
      if Accepts(f, row) then Sql.True else Sql.False
  {
    hide *;
    var n := |f.conditions|;
    ClauseIsBound(f, n);
    PartsMean(f, n, row);
    assert f.conditions[..n] == f.conditions;
  }

  lemma {:induction false} KeptRows(f: Filter, table: seq<Sql.Row>)
    requires f.conditions != [] && Sql.Bound(ClauseExpr(f, |f.conditions|), |f.conditions|)
    ensures Sql.Keep(ClauseExpr(f, |f.conditions|), BindValues(f.conditions), table) == Accepted(f, table)
    decreases |table|
  {
    hide ClauseExpr, BindValue, Accepts, Sql.Evaluate;
    if table != [] {
      KeptRows(f, table[..|table| - 1]);
      ClauseMeans(f, table[|table| - 1]);
    }
  }

  /** Running the compiled query returns exactly the rows the filter accepts. */
  lemma ClauseSelects(f: Filter, table: seq<Sql.Row>)
    requires f.conditions != []
    ensures Sql.Select(Clause(f, |f.conditions|), BindValues(f.conditions), table) == Ok(Accepted(f, table))
  {
    hide ClauseExpr, Clause, Accepted, Sql.Keep, Sql.ParseOr;
    ClauseParses(f);
    ClauseIsBound(f, |f.conditions|);
    KeptRows(f, table);
  }
}
