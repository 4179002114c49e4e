/** What the values of Kconfig symbols mean: the visibility, tristate value and string value of a symbol
    in terms of the meaning of its conditions under the values of the other symbols. */
module KconfigMeaning {
  import opened Wrappers
  import opened KconfigExpr
  import opened KconfigValues

  // Relations

  /** The number a symbol stands for in a relation, if it stands for one. */
  ghost function NumberOf(w: World, z: Sym): Option<int>
    requires WellFormed(w.cfg) && w.cfg.Known(z)
  {
    match w.cfg.defs[z].typ
    case Bool => Some(TriVal(w, z))
    case Tristate => Some(TriVal(w, z))
    case Fixed(_) => Some(TriVal(w, z))
    case Int => w.cfg.parse(10, StrVal(w, z))
    case Hex => w.cfg.parse(16, StrVal(w, z))
    case _ => w.cfg.parse(0, StrVal(w, z))
  }

  /** Dictionary order: at the first place where the texts differ, `a` ends or has the smaller letter. */
  ghost predicate TextBefore(a: string, b: string) {
    exists k :: 0 <= k <= |a| && k < |b| && a[..k] == b[..k] && (k == |a| || a[k] < b[k])
  }

  predicate IntHolds(rel: Rel, x: int, y: int) {
    match rel
    case Equal => x == y
    case Unequal => x != y
    case Less => x < y
    case LessEqual => x <= y
    case Greater => x > y
    case GreaterEqual => x >= y
  }

  ghost predicate TextHolds(rel: Rel, a: string, b: string) {
    match rel
    case Equal => a == b
    case Unequal => a != b
    case Less => TextBefore(a, b)
    case LessEqual => !TextBefore(b, a)
    case Greater => TextBefore(b, a)
    case GreaterEqual => !TextBefore(a, b)
  }

  /** Symbols are compared as numbers if both stand for one and not both are strings, as text otherwise. */
  ghost predicate Holds(w: World, rel: Rel, a: Sym, b: Sym)
    requires WellFormed(w.cfg) && w.cfg.Known(a) && w.cfg.Known(b)
  {
    var x, y := NumberOf(w, a), NumberOf(w, b);
    if x.Some? && y.Some? && !(w.cfg.defs[a].typ.Str? && w.cfg.defs[b].typ.Str?)
    then IntHolds(rel, x.value, y.value) else TextHolds(rel, StrVal(w, a), StrVal(w, b))
  }

  /** The values of all symbols. */
  ghost function Values(w: World): Valuation
    requires WellFormed(w.cfg)
  {
    Valuation((z: Sym) => if w.cfg.Known(z) then TriVal(w, z) else 0,
        (rel: Rel, a: Sym, b: Sym) => w.cfg.Known(a) && w.cfg.Known(b) && Holds(w, rel, a, b))
  }

  ghost function Value(w: World, e: Expr): Tri
    requires WellFormed(w.cfg)
  {
    Meaning(e, Values(w))
  }

  lemma {:induction false} StrCmpBefore(a: string, b: string)
    ensures StrCmp(a, b) == 0 <==> a == b
    ensures StrCmp(a, b) < 0 <==> TextBefore(a, b)
    ensures StrCmp(a, b) > 0 <==> TextBefore(b, a)
  {
    if a == [] || b == [] {
      if a == [] && b != [] {
        assert a[..0] == b[..0];
      }
      if b == [] && a != [] {
        assert b[..0] == a[..0];
      }
    } else if a[0] == b[0] {
      StrCmpBefore(a[1..], b[1..]);
      BeforeTail(a, b);
      BeforeTail(b, a);
      assert a == b <==> a[1..] == b[1..] by {
        assert a == [a[0]] + a[1..] && b == [b[0]] + b[1..];
      }
    } else {
      BeforeHead(a, b);
      BeforeHead(b, a);
    }
  }

  lemma BeforeHead(a: string, b: string)
    requires a != [] && b != [] && a[0] != b[0]
    ensures TextBefore(a, b) <==> a[0] < b[0]
  {
    if a[0] < b[0] {
      assert a[..0] == b[..0];
    }
    if TextBefore(a, b) {
      var k :| 0 <= k <= |a| && k < |b| && a[..k] == b[..k] && (k == |a| || a[k] < b[k]);
      assert k > 0 ==> a[..k][0] == b[..k][0];
    }
  }

  lemma PrefixTail(a: string, b: string, k: nat)
    requires a != [] && b != [] && a[0] == b[0] && k < |a| && k < |b|
    ensures a[..k + 1] == b[..k + 1] <==> a[1..][..k] == b[1..][..k]
  {
    assert a[..k + 1] == [a[0]] + a[1..][..k];
    assert b[..k + 1] == [b[0]] + b[1..][..k];
    assert a[..k + 1][1..] == a[1..][..k] && b[..k + 1][1..] == b[1..][..k];
  }

  lemma BeforeTail(a: string, b: string)
    requires a != [] && b != [] && a[0] == b[0]
    ensures TextBefore(a, b) <==> TextBefore(a[1..], b[1..])
  {
    if TextBefore(a, b) {
      var k :| 0 <= k <= |a| && k < |b| && a[..k] == b[..k] && (k == |a| || a[k] < b[k]);
      assert k > 0;
      PrefixTail(a, b, k - 1);
    }
    if TextBefore(a[1..], b[1..]) {
      var k :| 0 <= k <= |a| - 1 && k < |b| - 1 && a[1..][..k] == b[1..][..k] &&
          (k == |a| - 1 || a[1..][k] < b[1..][k]);
      PrefixTail(a, b, k);
    }
  }

  ghost predicate Under(e: Expr, s: Sym) { forall z :: z in Syms(e) ==> z < s }

  lemma RelationMeans(w: World, s: Sym, rel: Rel, a: Sym, b: Sym)
    requires WellFormed(w.cfg) && s <= |w.cfg.defs| && a < s && b < s
    ensures RelationOut(w.cfg, rel, a, b, Below(w, s)).v == if Holds(w, rel, a, b) then 2 else 0
  {
    hide TriAt, StrAt, TextBefore, StrCmp, WellFormed;
    StrCmpBefore(StrVal(w, a), StrVal(w, b));
  }

  /** expr_value computes the meaning of an expression of lower symbols. */
  lemma {:induction false} ExprMeans(w: World, s: Sym, e: Expr)
    requires WellFormed(w.cfg) && s <= |w.cfg.defs| && Under(e, s) && KnownExpr(w.cfg, e)
    ensures ExprOut(w.cfg, e, Below(w, s)).v == Value(w, e)
  {
    hide TriAt, StrAt, WellFormed, Holds, RelationOut;
    match e
    case Item(z) => assert z in Syms(e);
    case And(l, r) =>
      assert Syms(l) <= Syms(e) && Syms(r) <= Syms(e);
      ExprMeans(w, s, l);
      ExprMeans(w, s, r);
    case Or(l, r) =>
      assert Syms(l) <= Syms(e) && Syms(r) <= Syms(e);
      ExprMeans(w, s, l);
      ExprMeans(w, s, r);
    case Not(x) =>
      assert Syms(x) <= Syms(e);
      ExprMeans(w, s, x);
    case Relation(rel, a, b) =>
      assert a in Syms(e) && b in Syms(e);
      RelationMeans(w, s, rel, a, b);
  }

  // Visibility

  /** A tristate symbol is a bool while MODULES is n. */
  ghost predicate Tristate(w: World, s: Sym)
    requires WellFormed(w.cfg) && w.cfg.Known(s)
  {
    w.cfg.defs[s].typ.Tristate? && w.cfg.Known(w.cfg.modules) && TriVal(w, w.cfg.modules) != 0
  }

  /** A symbol is as visible as its most permissive prompt; m counts as y unless the symbol is a tristate. */
  lemma VisibilityMeans(w: World, s: Sym)
    requires WellFormed(w.cfg) && w.cfg.Known(s)
    ensures var ps := w.cfg.defs[s].prompts;
      && (Visibility(w, s) == 0 <==> forall i :: 0 <= i < |ps| ==> Value(w, ps[i]) == 0)
      && (Visibility(w, s) == 2 <==>
            exists i :: 0 <= i < |ps| && (Value(w, ps[i]) == 2 || (Value(w, ps[i]) == 1 && !Tristate(w, s))))
  {
    hide TriAt, StrAt, Value, ExprOut;
    assert WellDefined(w.cfg, s);
    var d := w.cfg.defs[s];
    Mentioned(w.cfg, s);
    PromptsMean(w, s, d.prompts, 0);
    assert VisAt(w, s) == VisOut(w.cfg, d, Below(w, s));
  }

  /** The conditions and values of a definition mention lower symbols only. */
  lemma Mentioned(cfg: Config, s: Sym)
    requires WellFormed(cfg) && cfg.Known(s)
    ensures var d := cfg.defs[s];
      && KnownDef(cfg, d)
      && (forall i :: 0 <= i < |d.prompts| ==> Under(d.prompts[i], s))
      && (forall i :: 0 <= i < |d.defaults| ==> Under(d.defaults[i].value, s) && Under(d.defaults[i].cond, s))
      && (forall i :: 0 <= i < |d.ranges| ==>
            d.ranges[i].low < s && d.ranges[i].high < s && Under(d.ranges[i].cond, s))
      && Under(d.revDep, s) && Under(d.weakRevDep, s) && Under(d.directDep, s)
      && (d.typ.Tristate? ==> cfg.modules < s)
  {
    hide KnownDef;
    assert WellDefined(cfg, s);
    var d := cfg.defs[s];
    assert forall z :: z in PromptSyms(d.prompts) + DefaultSyms(d.defaults) + RangeSyms(d.ranges) ==> z in d.Refs();
    forall i | 0 <= i < |d.prompts| ensures Under(d.prompts[i], s) {
      PromptMentions(d.prompts, i);
    }
    forall i | 0 <= i < |d.defaults| ensures Under(d.defaults[i].value, s) && Under(d.defaults[i].cond, s) {
      DefaultMentions(d.defaults, i);
    }
    forall i | 0 <= i < |d.ranges|
      ensures d.ranges[i].low < s && d.ranges[i].high < s && Under(d.ranges[i].cond, s)
    {
      RangeMentions(d.ranges, i);
    }
  }

  lemma PromptMentions(ps: seq<Expr>, i: nat)
    requires i < |ps|
    ensures Syms(ps[i]) <= PromptSyms(ps)
  {
  }

  lemma DefaultMentions(ds: seq<Default>, i: nat)
    requires i < |ds|
    ensures Syms(ds[i].value) <= DefaultSyms(ds) && Syms(ds[i].cond) <= DefaultSyms(ds)
  {
    forall z | z in Syms(ds[i].value) || z in Syms(ds[i].cond) ensures z in DefaultSyms(ds) {
      assert z in Syms(ds[i].value) + Syms(ds[i].cond);
    }
  }

  lemma RangeMentions(rs: seq<Range>, i: nat)
    requires i < |rs|
    ensures rs[i].low in RangeSyms(rs) && rs[i].high in RangeSyms(rs) && Syms(rs[i].cond) <= RangeSyms(rs)
  {
    var all := {rs[i].low, rs[i].high} + Syms(rs[i].cond);
    forall z | z in all ensures z in RangeSyms(rs) {
    }
    assert rs[i].low in all && rs[i].high in all;
  }

  lemma {:induction false} PromptsMean(w: World, s: Sym, ps: seq<Expr>, acc: Tri)
    requires WellFormed(w.cfg) && s <= |w.cfg.defs| && KnownExprs(w.cfg, ps)
    requires forall i :: 0 <= i < |ps| ==> Under(ps[i], s)
    ensures var v := PromptsOut(w.cfg, ps, acc, Below(w, s)).v;
      && v >= acc && (forall i :: 0 <= i < |ps| ==> Value(w, ps[i]) <= v)
      && (v == acc || exists i :: 0 <= i < |ps| && Value(w, ps[i]) == v)
    decreases |ps|
  {
    hide TriAt, StrAt, Value, ExprOut, WellFormed;
    if ps != [] {
      ExprMeans(w, s, ps[0]);
      var x := Value(w, ps[0]);
      PromptsMean(w, s, ps[1..], Max(acc, x));
      assert ps == [ps[0]] + ps[1..];
    }
  }

  // Tristate values

  /** The first default whose condition holds. */
  ghost predicate FirstDefault(w: World, ds: seq<Default>, i: nat)
    requires WellFormed(w.cfg)
  {
    i < |ds| && Value(w, ds[i].cond) != 0 && forall j :: 0 <= j < i ==> Value(w, ds[j].cond) == 0
  }

  ghost predicate NoDefault(w: World, ds: seq<Default>)
    requires WellFormed(w.cfg)
  {
    forall j :: 0 <= j < |ds| ==> Value(w, ds[j].cond) == 0
  }

  /** `x` is the value of the first default whose condition holds, cut to the condition, or n. */
  ghost predicate DefaultTri(w: World, ds: seq<Default>, x: Tri)
    requires WellFormed(w.cfg)
  {
    && (NoDefault(w, ds) ==> x == 0)
    && (forall i: nat :: FirstDefault(w, ds, i) ==> x == Min(Value(w, ds[i].value), Value(w, ds[i].cond)))
  }

  lemma {:induction false} DefaultsMean(w: World, s: Sym, ds: seq<Default>)
    requires WellFormed(w.cfg) && s <= |w.cfg.defs| && KnownDefaults(w.cfg, ds)
    requires forall i :: 0 <= i < |ds| ==> Under(ds[i].value, s) && Under(ds[i].cond, s)
    ensures DefaultTri(w, ds, DefaultsOut(w.cfg, ds, Below(w, s)).v)
    decreases |ds|
  {
    hide TriAt, StrAt, Value, ExprOut, WellFormed;
    if ds != [] {
      ExprMeans(w, s, ds[0].cond);
      ExprMeans(w, s, ds[0].value);
      DefaultsMean(w, s, ds[1..]);
      FirstShift(w, ds);
    }
  }

  lemma FirstShift(w: World, ds: seq<Default>)
    requires WellFormed(w.cfg) && ds != []
    ensures Value(w, ds[0].cond) == 0 ==> (NoDefault(w, ds) <==> NoDefault(w, ds[1..]))
    ensures Value(w, ds[0].cond) != 0 ==> !NoDefault(w, ds)
    ensures forall i: nat :: FirstDefault(w, ds, i) ==>
        if Value(w, ds[0].cond) != 0 then i == 0 else i > 0 && FirstDefault(w, ds[1..], i - 1)
  {
    hide Value, WellFormed;
    assert forall j :: 0 < j < |ds| ==> ds[j] == ds[1..][j - 1];
    forall i: nat | FirstDefault(w, ds, i) && Value(w, ds[0].cond) == 0
      ensures i > 0 && FirstDefault(w, ds[1..], i - 1)
    {
    }
  }

  /** What m becomes for a bool symbol, and for one that a y implies. */
  ghost function Raised(w: World, s: Sym, x: Tri): Tri
    requires WellFormed(w.cfg) && w.cfg.Known(s)
  {
    if x == 1 && (!Tristate(w, s) || Value(w, w.cfg.defs[s].weakRevDep) == 2) then 2 else x
  }

  /** What `s` would be if nothing selected it: the user's value, not more than visible, or the first
      default and what implies the symbol. */
  ghost predicate Unselected(w: World, s: Sym, x: Tri)
    requires WellFormed(w.cfg) && w.cfg.Known(s)
  {
    var d := w.cfg.defs[s];
    if Visibility(w, s) != 0 && s in w.user && w.user[s].Logic? then x == Min(w.user[s].tri, Visibility(w, s))
    else exists y: Tri :: DefaultTri(w, d.defaults, y) &&
           x == Max(y, if Value(w, d.directDep) != 0 then Value(w, d.weakRevDep) else 0)
  }

  /** The tristate value of a symbol: at least what selects it, and otherwise what the user chose or the
      defaults and implies give; never m for a bool. */
  lemma TriMeans(w: World, s: Sym)
    requires WellFormed(w.cfg) && w.cfg.Known(s)
    ensures var d := w.cfg.defs[s]; var r := TriVal(w, s);
      && (d.typ.Fixed? ==> r == d.typ.tri)
      && (!d.Logical() ==> r == 0)
      && (d.typ.Bool? || d.typ.Tristate? ==>
           && r >= Value(w, d.revDep)
           && (r == 1 ==> Tristate(w, s) && Value(w, d.weakRevDep) != 2)
           && exists x: Tri :: Unselected(w, s, x) && r == Raised(w, s, Max(Value(w, d.revDep), x)))
  {
    hide StrAt, VisAt, Value, ExprOut, DefaultsOut, WellFormed, Max, Min;
    var d := w.cfg.defs[s];
    assert WellFormed(w.cfg);
    Mentioned(w.cfg, s);
    if d.typ.Bool? || d.typ.Tristate? {
      ExprMeans(w, s, d.revDep);
      ExprMeans(w, s, d.weakRevDep);
      ExprMeans(w, s, d.directDep);
      DefaultsMean(w, s, d.defaults);
      ModulesKnown(w, s);
      MaxMin();
      var x := ChosenOut(w.cfg, d, User(w, s), VisAt(w, s).v, Below(w, s)).v;
      assert Unselected(w, s, x);
    }
  }

  lemma ModulesKnown(w: World, s: Sym)
    requires WellFormed(w.cfg) && w.cfg.Known(s)
    ensures w.cfg.Known(w.cfg.modules)
    ensures IsTristate(w.cfg, w.cfg.defs[s].typ, Below(w, s)).v <==> Tristate(w, s)
  {
    hide TriAt, StrAt;
    assert WellDefined(w.cfg, s);
  }

  lemma MaxMin()
    ensures forall a: Tri, b: Tri :: Max(a, b) == Max(b, a) && Max(a, b) >= a && Max(a, b) >= b
    ensures forall a: Tri :: Max(0, a) == a
    ensures forall a: Tri, b: Tri :: Max(a, b) == a || Max(a, b) == b
  {
  }

  // String values

  /** The text of the first default whose condition holds. */
  ghost predicate DefaultText(w: World, ds: seq<Default>, x: Option<string>)
    requires WellFormed(w.cfg)
  {
    && (NoDefault(w, ds) ==> x == None)
    && (forall i: nat :: FirstDefault(w, ds, i) ==> x == TextOf(w, ds[i].value))
  }

  ghost function TextOf(w: World, e: Expr): Option<string>
    requires WellFormed(w.cfg)
  {
    if e.Item? && w.cfg.Known(e.sym) then Some(StrVal(w, e.sym)) else None
  }

  /** The bounds of the first range whose condition holds. */
  ghost predicate Bounds(w: World, rs: seq<Range>, base: nat, x: Option<(int, int)>)
    requires WellFormed(w.cfg)
  {
    && ((forall j :: 0 <= j < |rs| ==> Value(w, rs[j].cond) == 0) ==> x == None)
    && (forall i: nat :: FirstRange(w, rs, i) && w.cfg.Known(rs[i].low) && w.cfg.Known(rs[i].high) ==>
          x == Some((Number(w.cfg, base, StrVal(w, rs[i].low)), Number(w.cfg, base, StrVal(w, rs[i].high)))))
  }

  ghost predicate FirstRange(w: World, rs: seq<Range>, i: nat)
    requires WellFormed(w.cfg)
  {
    i < |rs| && Value(w, rs[i].cond) != 0 && forall j :: 0 <= j < i ==> Value(w, rs[j].cond) == 0
  }

  /** Text that is no number counts as zero. */
  function Number(cfg: Config, base: nat, text: string): int {
    if cfg.parse(base, text).Some? then cfg.parse(base, text).value else 0
  }

  /** The user's text, if the symbol is visible and has one. */
  ghost function UserText(w: World, s: Sym): Option<string>
    requires WellFormed(w.cfg) && w.cfg.Known(s)
  {
    if Visibility(w, s) != 0 && s in w.user && w.user[s].Text? then Some(w.user[s].text) else None
  }

  /** The user's number, if there is one and it is in range, as written; else the default, or nothing, as
      written if its number is in range, and otherwise the nearer bound. */
  ghost predicate NumberText(w: World, base: nat, user: Option<string>, def: Option<string>, range: Option<(int, int)>,
                             r: string)
  {
    var n := if def.Some? then Number(w.cfg, base, def.value) else 0;
    if user.Some? && user.value != "" && Inside(Number(w.cfg, base, user.value), range) then r == user.value
    else if Inside(n, range) then r == if def.Some? then def.value else ""
    else r == w.cfg.show(base, if n < range.value.0 then range.value.0 else range.value.1)
  }

  predicate Inside(n: int, range: Option<(int, int)>) {
    range.Some? ==> range.value.0 <= n && n <= range.value.1
  }

  /** The string value of a symbol, with the default text and the range in effect. */
  lemma StrMeans(w: World, s: Sym) returns (def: Option<string>, range: Option<(int, int)>)
    requires WellFormed(w.cfg) && w.cfg.Known(s)
    ensures DefaultText(w, w.cfg.defs[s].defaults, def)
    ensures Bounds(w, w.cfg.defs[s].ranges, if w.cfg.defs[s].typ.Hex? then 16 else 10, range)
    ensures var d := w.cfg.defs[s]; var r := StrVal(w, s); var user := UserText(w, s);
      && (d.Logical() ==> r == ["n", "m", "y"][TriVal(w, s)])
      && (d.typ.Unknown? ==> r == d.name)
      && (d.typ.Int? || d.typ.Hex? ==> NumberText(w, if d.typ.Hex? then 16 else 10, user, def, range, r))
      && (d.typ.Str? ==> r == if user.Some? then user.value else if def.Some? then def.value else "")
  {
    hide VisAt, TriAt, Value, ExprOut, TextDefaultOut, RangeOut, WellFormed, Bounds, DefaultText;
    var d := w.cfg.defs[s];
    Mentioned(w.cfg, s);
    TextMeans(w, s, d.defaults);
    var base := if d.typ.Hex? then 16 else 10;
    RangeMeans(w, s, d.ranges, base);
    def := TextDefaultOut(w.cfg, d.defaults, Below(w, s)).v;
    range := RangeOut(w.cfg, d.ranges, base, Below(w, s)).v;
    assert StrAt(w, s) == StrOut(w.cfg, s, d, User(w, s), VisAt(w, s).v, TriAt(w, s).v, Below(w, s));
  }

  lemma {:induction false} TextMeans(w: World, s: Sym, ds: seq<Default>)
    requires WellFormed(w.cfg) && s <= |w.cfg.defs| && KnownDefaults(w.cfg, ds)
    requires forall i :: 0 <= i < |ds| ==> Under(ds[i].value, s) && Under(ds[i].cond, s)
    ensures DefaultText(w, ds, TextDefaultOut(w.cfg, ds, Below(w, s)).v)
    decreases |ds|
  {
    hide TriAt, StrAt, Value, ExprOut, WellFormed;
    if ds != [] {
      ExprMeans(w, s, ds[0].cond);
      assert ds[0].value.Item? ==> ds[0].value.sym in Syms(ds[0].value);
      TextMeans(w, s, ds[1..]);
      FirstShift(w, ds);
    }
  }

  lemma {:induction false} RangeMeans(w: World, s: Sym, rs: seq<Range>, base: nat)
    requires WellFormed(w.cfg) && s <= |w.cfg.defs| && KnownRanges(w.cfg, rs)
    requires forall i :: 0 <= i < |rs| ==> rs[i].low < s && rs[i].high < s && Under(rs[i].cond, s)
    ensures Bounds(w, rs, base, RangeOut(w.cfg, rs, base, Below(w, s)).v)
    decreases |rs|
  {
    hide TriAt, StrAt, Value, ExprOut, WellFormed;
    if rs != [] {
      ExprMeans(w, s, rs[0].cond);
      RangeMeans(w, s, rs[1..], base);
      assert forall j :: 0 < j < |rs| ==> rs[j] == rs[1..][j - 1];
      forall i: nat | FirstRange(w, rs, i) && Value(w, rs[0].cond) == 0
        ensures i > 0 && FirstRange(w, rs[1..], i - 1)
      {
      }
    }
  }
}
