/** Kconfig expressions (kconfiglib.py): evaluation, printing and the recursive-descent parser.
    Text is taken as the tokens the lexer makes of it. */
module KconfigExpr {
  import opened Wrappers

  type Sym = nat

  datatype Rel = Equal | Unequal | Less | LessEqual | Greater | GreaterEqual

  datatype Expr =
    | Item(sym: Sym)
    | And(l: Expr, r: Expr)
    | Or(l: Expr, r: Expr)
    | Not(e: Expr)
    | Relation(rel: Rel, a: Sym, b: Sym)

  type Tri = n: nat | n <= 2

  /** Symbol values and relation outcomes. */
  datatype Valuation = Valuation(tri: Sym -> Tri, holds: (Rel, Sym, Sym) -> bool)

  function Min(a: Tri, b: Tri): (m: Tri)
    ensures m <= a && m <= b && (m == a || m == b)
  {
    if b < a then b else a
  }

  function Max(a: Tri, b: Tri): (m: Tri)
    ensures m >= a && m >= b && (m == a || m == b)
  {
    if b > a then b else a
  }

  /** The meaning of an expression in three-valued logic. */
  function Meaning(e: Expr, v: Valuation): Tri {
    match e
    case Item(s) => v.tri(s)
    case And(l, r) => Min(Meaning(l, v), Meaning(r, v))
    case Or(l, r) => Max(Meaning(l, v), Meaning(r, v))
    case Not(x) => 2 - Meaning(x, v)
    case Relation(rel, a, b) => if v.holds(rel, a, b) then 2 else 0
  }

  /** expr_value, which stops early at an n on the left of && and a y on the left of ||. */
  function ExprValue(e: Expr, v: Valuation): (r: Tri)
    ensures r == Meaning(e, v)
  {
    match e
    case Item(s) => v.tri(s)
    case And(l, r) =>
      var v1 := ExprValue(l, v);
      if v1 == 0 then 0 else Min(v1, ExprValue(r, v))
    case Or(l, r) =>
      var v1 := ExprValue(l, v);
      if v1 == 2 then 2 else Max(v1, ExprValue(r, v))
    case Not(x) => 2 - ExprValue(x, v)
    case Relation(rel, a, b) => if v.holds(rel, a, b) then 2 else 0
  }

  /** _make_and, given the constant symbols n and y. */
  function MakeAnd(e1: Expr, e2: Expr, n: Sym, y: Sym): (e: Expr)
    ensures forall v: Valuation :: v.tri(n) == 0 && v.tri(y) == 2 ==>
              Meaning(e, v) == Min(Meaning(e1, v), Meaning(e2, v))
  {
    if e1 == Item(y) then e2
    else if e2 == Item(y) then e1
    else if e1 == Item(n) || e2 == Item(n) then Item(n)
    else And(e1, e2)
  }

  /** _make_or, given the constant symbols n and y. */
  function MakeOr(e1: Expr, e2: Expr, n: Sym, y: Sym): (e: Expr)
    ensures forall v: Valuation :: v.tri(n) == 0 && v.tri(y) == 2 ==>
              Meaning(e, v) == Max(Meaning(e1, v), Meaning(e2, v))
  {
    if e1 == Item(n) then e2
    else if e2 == Item(n) then e1
    else if e1 == Item(y) || e2 == Item(y) then Item(y)
    else Or(e1, e2)
  }

  // Printing

  datatype Token = TSym(sym: Sym) | TAnd | TOr | TNot | TOpen | TClose | TRel(rel: Rel) | TEnd

  /** expr_str. */
  function Print(e: Expr): seq<Token>
    decreases e, 0
  {
    match e
    case Item(s) => [TSym(s)]
    case And(l, r) => Parenthesize(l, l.Or?) + [TAnd] + Parenthesize(r, r.Or?)
    case Or(l, r) => Parenthesize(l, l.And?) + [TOr] + Parenthesize(r, r.And?)
    case Not(x) => if x.Item? then [TNot, TSym(x.sym)] else [TNot] + Parenthesize(x, true)
    case Relation(rel, a, b) => [TSym(a), TRel(rel), TSym(b)]
  }

  function Parenthesize(e: Expr, need: bool): seq<Token>
    decreases e, 1
  {
    if need then [TOpen] + Print(e) + [TClose] else Print(e)
  }

  // Parsing

  datatype Parsed = Malformed | Parsed(e: Expr, rest: seq<Token>)

  /** The rewriting of m to m && MODULES, when asked for. */
  datatype Rewrite = Keep | RewriteM(m: Sym, modules: Sym)

  /** What _parse_factor makes of the tokens ahead. */
  function Factor(ts: seq<Token>, w: Rewrite): (p: Parsed)
    ensures p.Parsed? ==> |p.rest| < |ts|
    decreases |ts|, 0
  {
    if ts == [] then Malformed
    else match ts[0]
      case TSym(s) =>
        if |ts| > 1 && ts[1].TRel? then
          if |ts| > 2 && ts[2].TSym? then Parsed(Relation(ts[1].rel, s, ts[2].sym), ts[3..]) else Malformed
        else if w.RewriteM? && s == w.m then Parsed(And(Item(s), Item(w.modules)), ts[1..])
        else Parsed(Item(s), ts[1..])
      case TNot =>
        var p := Factor(ts[1..], w);
        if p.Parsed? then Parsed(Not(p.e), p.rest) else Malformed
      case TOpen =>
        var p := OrExpr(ts[1..], w);
        if p.Parsed? && p.rest != [] && p.rest[0] == TClose then Parsed(p.e, p.rest[1..]) else Malformed
      case _ => Malformed
  }

  /** What _parse_and_expr makes of the tokens ahead. */
  function AndExpr(ts: seq<Token>, w: Rewrite): (p: Parsed)
    ensures p.Parsed? ==> |p.rest| < |ts|
    decreases |ts|, 1
  {
    var p := Factor(ts, w);
    if p.Parsed? && p.rest != [] && p.rest[0] == TAnd then
      var q := AndExpr(p.rest[1..], w);
      if q.Parsed? then Parsed(And(p.e, q.e), q.rest) else Malformed
    else p
  }

  /** What _parse_expr makes of the tokens ahead. */
  function OrExpr(ts: seq<Token>, w: Rewrite): (p: Parsed)
    ensures p.Parsed? ==> |p.rest| < |ts|
    decreases |ts|, 2
  {
    var p := AndExpr(ts, w);
    if p.Parsed? && p.rest != [] && p.rest[0] == TOr then
      var q := OrExpr(p.rest[1..], w);
      if q.Parsed? then Parsed(Or(p.e, q.e), q.rest) else Malformed
    else p
  }

  // The expression a printed expression is read back as

  function AndJoin(l: Expr, r: Expr): Expr { if l.And? then And(l.l, AndJoin(l.r, r)) else And(l, r) }
  function OrJoin(l: Expr, r: Expr): Expr { if l.Or? then Or(l.l, OrJoin(l.r, r)) else Or(l, r) }

  /** Left-nested ands and ors regrouped to the right. */
  function Regroup(e: Expr): Expr {
    match e
    case And(l, r) => AndJoin(Regroup(l), Regroup(r))
    case Or(l, r) => OrJoin(Regroup(l), Regroup(r))
    case Not(x) => Not(Regroup(x))
    case _ => e
  }

  /** No && stands as the left operand of an &&, and no || as that of an ||. */
  predicate RightNested(e: Expr) {
    match e
    case And(l, r) => !l.And? && RightNested(l) && RightNested(r)
    case Or(l, r) => !l.Or? && RightNested(l) && RightNested(r)
    case Not(x) => RightNested(x)
    case _ => true
  }

  predicate Starts(ts: seq<Token>, t: Token) { ts != [] && ts[0] == t }
  predicate StartsRel(ts: seq<Token>) { ts != [] && ts[0].TRel? }

  lemma {:induction false} RegroupShape(e: Expr)
    ensures Regroup(e).And? <==> e.And?
    ensures Regroup(e).Or? <==> e.Or?
  {
  }

  lemma {:induction false} AndJoinAssoc(a: Expr, b: Expr, c: Expr)
    ensures AndJoin(a, AndJoin(b, c)) == AndJoin(AndJoin(a, b), c)
  {
    if a.And? {
      AndJoinAssoc(a.r, b, c);
    }
  }

  lemma {:induction false} OrJoinAssoc(a: Expr, b: Expr, c: Expr)
    ensures OrJoin(a, OrJoin(b, c)) == OrJoin(OrJoin(a, b), c)
  {
    if a.Or? {
      OrJoinAssoc(a.r, b, c);
    }
  }

  // One unfolding of each parser function

  lemma AndStep(ts: seq<Token>, f: Expr, more: seq<Token>)
    requires Factor(ts, Keep) == Parsed(f, [TAnd] + more) && AndExpr(more, Keep).Parsed?
    ensures AndExpr(ts, Keep) == Parsed(And(f, AndExpr(more, Keep).e), AndExpr(more, Keep).rest)
  {
    assert ([TAnd] + more)[1..] == more;
  }

  lemma OrStep(ts: seq<Token>, f: Expr, more: seq<Token>)
    requires AndExpr(ts, Keep) == Parsed(f, [TOr] + more) && OrExpr(more, Keep).Parsed?
    ensures OrExpr(ts, Keep) == Parsed(Or(f, OrExpr(more, Keep).e), OrExpr(more, Keep).rest)
  {
    assert ([TOr] + more)[1..] == more;
  }

  lemma AndUnfold(ts: seq<Token>, w: Rewrite)
    ensures var p := Factor(ts, w);
      && (p.Malformed? ==> AndExpr(ts, w).Malformed?)
      && (p.Parsed? && !Starts(p.rest, TAnd) ==> AndExpr(ts, w) == p)
      && (p.Parsed? && Starts(p.rest, TAnd) ==>
            var q := AndExpr(p.rest[1..], w);
            AndExpr(ts, w) == if q.Parsed? then Parsed(And(p.e, q.e), q.rest) else Malformed)
  {
  }

  lemma FactorUnfold(ts: seq<Token>, w: Rewrite)
    ensures Starts(ts, TNot) ==>
              var p := Factor(ts[1..], w);
              Factor(ts, w) == if p.Parsed? then Parsed(Not(p.e), p.rest) else Malformed
    ensures Starts(ts, TOpen) ==>
              var p := OrExpr(ts[1..], w);
              Factor(ts, w) == if p.Parsed? && Starts(p.rest, TClose) then Parsed(p.e, p.rest[1..]) else Malformed
    ensures ts != [] && !ts[0].TSym? && ts[0] != TNot && ts[0] != TOpen ==> Factor(ts, w).Malformed?
  {
    hide AndExpr, OrExpr;
  }

  lemma OrUnfold(ts: seq<Token>, w: Rewrite)
    ensures var p := AndExpr(ts, w);
      && (p.Malformed? ==> OrExpr(ts, w).Malformed?)
      && (p.Parsed? && !Starts(p.rest, TOr) ==> OrExpr(ts, w) == p)
      && (p.Parsed? && Starts(p.rest, TOr) ==>
            var q := OrExpr(p.rest[1..], w);
            OrExpr(ts, w) == if q.Parsed? then Parsed(Or(p.e, q.e), q.rest) else Malformed)
  {
  }

  lemma ParenStep(inner: seq<Token>, e: Expr, rest: seq<Token>)
    requires OrExpr(inner + ([TClose] + rest), Keep) == Parsed(e, [TClose] + rest)
    ensures Factor(([TOpen] + inner + [TClose]) + rest, Keep) == Parsed(e, rest)
  {
    hide AndExpr, OrExpr;
    var ts := ([TOpen] + inner + [TClose]) + rest;
    assert ts[0] == TOpen && ts[1..] == inner + ([TClose] + rest);
    assert ([TClose] + rest)[1..] == rest;
  }

  lemma NotStep(inner: seq<Token>, e: Expr, rest: seq<Token>)
    requires Factor(inner + rest, Keep) == Parsed(e, rest)
    ensures Factor(([TNot] + inner) + rest, Keep) == Parsed(Not(e), rest)
  {
    hide AndExpr, OrExpr;
    var ts := ([TNot] + inner) + rest;
    assert ts[0] == TNot && ts[1..] == inner + rest;
  }

  lemma LeafStep(e: Expr, rest: seq<Token>)
    requires e.Item? || e.Relation?
    requires !StartsRel(rest)
    ensures Factor(Print(e) + rest, Keep) == Parsed(e, rest)
  {
    var ts := Print(e) + rest;
    if e.Item? {
      assert ts[1..] == rest;
    } else {
      assert ts[3..] == rest;
    }
  }

  // The printed form of a node, regrouped as the parser will see it

  lemma PrintedAnd(e: Expr, tail: seq<Token>)
    requires e.And?
    ensures Parenthesize(e, false) + tail ==
            Parenthesize(e.l, e.l.Or?) + ([TAnd] + (Parenthesize(e.r, e.r.Or?) + tail))
  {
  }

  lemma PrintedOr(e: Expr, tail: seq<Token>)
    requires e.Or?
    ensures Parenthesize(e, false) + tail ==
            Parenthesize(e.l, e.l.And?) + ([TOr] + (Parenthesize(e.r, e.r.And?) + tail))
  {
  }

  lemma PrintedNot(e: Expr)
    requires e.Not?
    ensures Parenthesize(e, false) == [TNot] + Parenthesize(e.e, !e.e.Item?)
  {
  }

  /** A printed operand that is a single factor is read back as one. */
  lemma {:induction false} FactorPrinted(e: Expr, need: bool, rest: seq<Token>)
    requires need || !(e.And? || e.Or?)
    requires !StartsRel(rest)
    ensures Factor(Parenthesize(e, need) + rest, Keep) == Parsed(Regroup(e), rest)
    decreases e, if need then 4 else 0
  {
    hide Factor, OrExpr, AndExpr, Print;
    if need {
      OrPrinted(e, [TClose] + rest);
      ParenStep(Print(e), Regroup(e), rest);
    } else if e.Not? {
      PrintedNot(e);
      FactorPrinted(e.e, !e.e.Item?, rest);
      NotStep(Parenthesize(e.e, !e.e.Item?), Regroup(e.e), rest);
    } else {
      LeafStep(e, rest);
    }
  }

  /** A printed operand of && followed by && and a parsable rest. */
  lemma {:induction false} AndContinued(e: Expr, more: seq<Token>)
    requires AndExpr(more, Keep).Parsed?
    ensures AndExpr(Parenthesize(e, e.Or?) + ([TAnd] + more), Keep) ==
            Parsed(AndJoin(Regroup(e), AndExpr(more, Keep).e), AndExpr(more, Keep).rest)
    decreases e, 5
  {
    hide Factor, OrExpr, AndExpr, Print, Parenthesize;
    var q := AndExpr(more, Keep);
    if e.And? {
      AndContinued(e.r, more);
      AndContinued(e.l, Parenthesize(e.r, e.r.Or?) + ([TAnd] + more));
      PrintedAnd(e, [TAnd] + more);
      AndJoinAssoc(Regroup(e.l), Regroup(e.r), q.e);
    } else {
      FactorPrinted(e, e.Or?, [TAnd] + more);
      AndStep(Parenthesize(e, e.Or?) + ([TAnd] + more), Regroup(e), more);
      RegroupShape(e);
    }
  }

  /** A printed operand ending a conjunction. */
  lemma {:induction false} AndPrinted(e: Expr, need: bool, rest: seq<Token>)
    requires need || !e.Or?
    requires !StartsRel(rest) && !Starts(rest, TAnd)
    ensures AndExpr(Parenthesize(e, need) + rest, Keep) == Parsed(Regroup(e), rest)
    decreases e, if need then 5 else 1
  {
    if e.And? && !need {
      hide Factor, OrExpr, AndExpr, Print, Parenthesize;
      AndPrinted(e.r, e.r.Or?, rest);
      AndContinued(e.l, Parenthesize(e.r, e.r.Or?) + rest);
      PrintedAnd(e, rest);
    } else {
      hide Factor, OrExpr, Print, Parenthesize, Regroup;
      FactorPrinted(e, need, rest);
    }
  }

  /** A printed operand of || followed by || and a parsable rest. */
  lemma {:induction false} OrContinued(e: Expr, more: seq<Token>)
    requires OrExpr(more, Keep).Parsed?
    ensures OrExpr(Parenthesize(e, e.And?) + ([TOr] + more), Keep) ==
            Parsed(OrJoin(Regroup(e), OrExpr(more, Keep).e), OrExpr(more, Keep).rest)
    decreases e, 6
  {
    hide Factor, OrExpr, AndExpr, Print, Parenthesize;
    var q := OrExpr(more, Keep);
    if e.Or? {
      OrContinued(e.r, more);
      OrContinued(e.l, Parenthesize(e.r, e.r.And?) + ([TOr] + more));
      PrintedOr(e, [TOr] + more);
      OrJoinAssoc(Regroup(e.l), Regroup(e.r), q.e);
    } else {
      AndPrinted(e, e.And?, [TOr] + more);
      OrStep(Parenthesize(e, e.And?) + ([TOr] + more), Regroup(e), more);
      RegroupShape(e);
    }
  }

  /** A printed operand of || ending the disjunction. */
  lemma {:induction false} OrOperand(e: Expr, need: bool, rest: seq<Token>)
    requires !StartsRel(rest) && !Starts(rest, TAnd) && !Starts(rest, TOr)
    ensures OrExpr(Parenthesize(e, need) + rest, Keep) == Parsed(Regroup(e), rest)
    decreases e, if need then 6 else 2
  {
    if e.Or? && !need {
      hide Factor, OrExpr, AndExpr, Print, Parenthesize;
      OrOperand(e.r, e.r.And?, rest);
      OrContinued(e.l, Parenthesize(e.r, e.r.And?) + rest);
      PrintedOr(e, rest);
    } else {
      hide Factor, AndExpr, Print, Parenthesize, Regroup;
      AndPrinted(e, need, rest);
    }
  }

  /** A printed expression is read back whole, regrouped to the right, whatever follows it, as
      long as that cannot extend it. */
  lemma {:induction false} OrPrinted(e: Expr, rest: seq<Token>)
    requires !StartsRel(rest) && !Starts(rest, TAnd) && !Starts(rest, TOr)
    ensures OrExpr(Print(e) + rest, Keep) == Parsed(Regroup(e), rest)
    decreases e, 3
  {
    hide Factor, AndExpr, OrExpr, Print, Regroup;
    OrOperand(e, false, rest);
  }

  // Regrouping changes no value, and nothing at all in a right-nested expression

  lemma {:induction false} JoinMeaning(a: Expr, b: Expr, v: Valuation)
    ensures Meaning(AndJoin(a, b), v) == Min(Meaning(a, v), Meaning(b, v))
    ensures Meaning(OrJoin(a, b), v) == Max(Meaning(a, v), Meaning(b, v))
  {
    if a.And? || a.Or? {
      JoinMeaning(a.r, b, v);
    }
  }

  lemma {:induction false} RegroupMeaning(e: Expr, v: Valuation)
    ensures Meaning(Regroup(e), v) == Meaning(e, v)
  {
    match e
    case And(l, r) =>
      RegroupMeaning(l, v);
      RegroupMeaning(r, v);
      JoinMeaning(Regroup(l), Regroup(r), v);
    case Or(l, r) =>
      RegroupMeaning(l, v);
      RegroupMeaning(r, v);
      JoinMeaning(Regroup(l), Regroup(r), v);
    case Not(x) => RegroupMeaning(x, v);
    case _ =>
  }

  lemma {:induction false} RegroupNested(e: Expr)
    ensures RightNested(Regroup(e))
    ensures RightNested(e) <==> Regroup(e) == e
  {
    match e
    case And(l, r) =>
      RegroupNested(l);
      RegroupNested(r);
      JoinNested(Regroup(l), Regroup(r));
      RegroupShape(l);
    case Or(l, r) =>
      RegroupNested(l);
      RegroupNested(r);
      JoinNested(Regroup(l), Regroup(r));
      RegroupShape(l);
    case Not(x) => RegroupNested(x);
    case _ =>
  }

  lemma {:induction false} JoinNested(a: Expr, b: Expr)
    requires RightNested(a) && RightNested(b)
    ensures RightNested(AndJoin(a, b)) && RightNested(OrJoin(a, b))
    ensures AndJoin(a, b).And? && !AndJoin(a, b).l.And? && OrJoin(a, b).Or? && !OrJoin(a, b).l.Or?
  {
    if a.And? || a.Or? {
      JoinNested(a.r, b);
    }
  }

  /** Reading back what expr_str prints yields an expression with the same value under every
      assignment, and the very same tree exactly when no && is the left operand of an && and no
      || the left operand of an ||. */
  lemma RoundTrip(e: Expr)
    ensures var p := OrExpr(Print(e) + [TEnd], Keep);
      && p.Parsed? && p.rest == [TEnd]
      && (forall v: Valuation :: Meaning(p.e, v) == Meaning(e, v))
      && (p.e == e <==> RightNested(e))
  {
    hide Factor, AndExpr, OrExpr, Print, Regroup, Meaning, RightNested;
    OrPrinted(e, [TEnd]);
    RegroupNested(e);
    forall v: Valuation ensures Meaning(Regroup(e), v) == Meaning(e, v) {
      RegroupMeaning(e, v);
    }
  }

  /** Kconfig's token cursor: `_tokens` and `_tokens_i`. The token list ends in the end token. */
  class Parser {
    const tokens: seq<Token>
    var i: int

    constructor (tokens: seq<Token>)
      requires tokens != [] && tokens[|tokens| - 1] == TEnd
      ensures Valid() && Ahead() == tokens
    {
      this.tokens := tokens;
      i := -1;
    }

    ghost predicate Valid()
      reads this
    {
      tokens != [] && tokens[|tokens| - 1] == TEnd && -1 <= i < |tokens| - 1
    }

    /** The tokens not yet taken. */
    ghost function Ahead(): seq<Token>
      reads this
      requires Valid()
    {
      tokens[i + 1..]
    }

    /** _check_token. */
    method CheckToken(t: Token) returns (taken: bool)
      requires Valid() && t != TEnd
      modifies this
      ensures Valid() && taken == (old(Ahead())[0] == t)
      ensures Ahead() == if taken then old(Ahead())[1..] else old(Ahead())
    {
      if tokens[i + 1] == t {
        i := i + 1;
        return true;
      }
      return false;
    }

    /** _next_token. */
    method NextToken() returns (t: Token)
      requires Valid()
      modifies this
      ensures t == old(Ahead())[0] && (t != TEnd ==> Valid() && Ahead() == old(Ahead())[1..])
    {
      i := i + 1;
      return tokens[i];
    }

    /** _parse_factor. None stands for the raised syntax error. */
    method ParseFactor(w: Rewrite) returns (r: Option<Expr>)
      requires Valid()
      modifies this
      ensures r.Some? <==> Factor(old(Ahead()), w).Parsed?
      ensures r.Some? ==> Valid() && Parsed(r.value, Ahead()) == Factor(old(Ahead()), w)
      decreases |Ahead()|, 0
    {
      hide Factor, AndExpr, OrExpr;
      ghost var ts := Ahead();
      FactorUnfold(ts, w);
      var token := NextToken();
      match token
      case TSym(s) =>
        r := ParseSymOrRelation(s, w, ts);
      case TNot =>
        var x := ParseFactor(w);
        return if x.Some? then Some(Not(x.value)) else None;
      case TOpen =>
        var x := ParseExpr(w);
        if x.Some? {
          var closed := CheckToken(TClose);
          if closed {
            return x;
          }
        }
        return None;
      case _ =>
        return None;
    }

    /** The symbol case of _parse_factor: a plain symbol or a relation. */
    method ParseSymOrRelation(s: Sym, w: Rewrite, ghost ts: seq<Token>) returns (r: Option<Expr>)
      requires Valid() && ts == [TSym(s)] + Ahead()
      modifies this
      ensures r.Some? <==> Factor(ts, w).Parsed?
      ensures r.Some? ==> Valid() && Parsed(r.value, Ahead()) == Factor(ts, w)
    {
      if tokens[i + 1].TRel? {
        assert Ahead() == ts[1..];
        var rel := NextToken();
        assert Ahead() == ts[2..];
        var b := NextToken();
        if !b.TSym? {
          return None;
        }
        assert Ahead() == ts[3..];
        return Some(Relation(rel.rel, s, b.sym));
      }
      if w.RewriteM? && s == w.m {
        return Some(And(Item(s), Item(w.modules)));
      }
      return Some(Item(s));
    }

    /** _parse_and_expr. */
    method ParseAndExpr(w: Rewrite) returns (r: Option<Expr>)
      requires Valid()
      modifies this
      ensures r.Some? <==> AndExpr(old(Ahead()), w).Parsed?
      ensures r.Some? ==> Valid() && Parsed(r.value, Ahead()) == AndExpr(old(Ahead()), w)
      decreases |Ahead()|, 1
    {
      hide Factor, AndExpr, OrExpr;
      ghost var ts := Ahead();
      AndUnfold(ts, w);
      r := ParseFactor(w);
      if r.Some? {
        var more := CheckToken(TAnd);
        if more {
          var right := ParseAndExpr(w);
          return if right.Some? then Some(And(r.value, right.value)) else None;
        }
      }
    }

    /** _parse_expr. */
    method ParseExpr(w: Rewrite) returns (r: Option<Expr>)
      requires Valid()
      modifies this
      ensures r.Some? <==> OrExpr(old(Ahead()), w).Parsed?
      ensures r.Some? ==> Valid() && Parsed(r.value, Ahead()) == OrExpr(old(Ahead()), w)
      decreases |Ahead()|, 2
    {
      hide Factor, AndExpr, OrExpr;
      ghost var ts := Ahead();
      OrUnfold(ts, w);
      r := ParseAndExpr(w);
      if r.Some? {
        var more := CheckToken(TOr);
        if more {
          var right := ParseExpr(w);
          return if right.Some? then Some(Or(r.value, right.value)) else None;
        }
      }
    }
  }
}
