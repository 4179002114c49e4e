/** What the visibility, tristate value and string value of a Kconfig symbol (kconfiglib.py) are,
    computed from scratch, and which other values the computation looks at on the way. */
module KconfigValues {
  import opened Wrappers
  import opened KconfigExpr

  /** Symbol types. `Fixed` is that of the constant symbols n, m and y. */
  datatype Type = Unknown | Bool | Tristate | Str | Int | Hex | Fixed(tri: Tri)

  datatype Default = Default(value: Expr, cond: Expr)
  datatype Range = Range(low: Sym, high: Sym, cond: Expr)

  datatype Def = Def(typ: Type, name: string, constant: bool, defined: bool, prompts: seq<Expr>,
                     defaults: seq<Default>, revDep: Expr, weakRevDep: Expr, directDep: Expr, ranges: seq<Range>)
  {
    predicate Logical() { typ.Bool? || typ.Tristate? || typ.Fixed? }
    predicate Numeric() { typ.Int? || typ.Hex? }

    /** The symbols the definition mentions, as _build_dep collects them. */
    function Refs(): set<Sym> {
      PromptSyms(prompts) + DefaultSyms(defaults) + Syms(revDep) + Syms(weakRevDep) + Syms(directDep) +
          RangeSyms(ranges)
    }
  }

  /** All definitions. Number parsing and printing are Python's `int(s, base)`, `str` and `hex`. */
  datatype Config = Config(defs: seq<Def>, modules: Sym, parse: (nat, string) -> Option<int>,
      show: (nat, int) -> string)
  {
    predicate Known(s: Sym) { s < |defs| }
  }

  datatype UserValue = Logic(tri: Tri) | Text(text: string)

  datatype World = World(cfg: Config, user: map<Sym, UserValue>)

  function Syms(e: Expr): set<Sym> {
    match e
    case Item(s) => {s}
    case And(l, r) => Syms(l) + Syms(r)
    case Or(l, r) => Syms(l) + Syms(r)
    case Not(x) => Syms(x)
    case Relation(_, a, b) => {a, b}
  }

  /** A cached value of a symbol. */
  datatype Cell = VisOf(s: Sym) | TriOf(s: Sym) | StrOf(s: Sym)

  /** The values a computation may look up. */
  datatype Env = Env(tri: Sym -> Tri, str: Sym -> string)

  /** A computed value with the cells looked at to get it. */
  datatype Out<V> = Out(v: V, seen: set<Cell>)

  function Base(t: Type): nat { if t.Int? then 10 else if t.Hex? then 16 else 0 }

  function StrCmp(a: string, b: string): int {
    if a == [] && b == [] then 0
    else if a == [] then -1
    else if b == [] then 1
    else if a[0] < b[0] then -1
    else if a[0] > b[0] then 1
    else StrCmp(a[1..], b[1..])
  }

  function Compare(rel: Rel, comp: int): bool {
    match rel
    case Equal => comp == 0
    case Unequal => comp != 0
    case Less => comp < 0
    case LessEqual => comp <= 0
    case Greater => comp > 0
    case GreaterEqual => comp >= 0
  }

  /** _sym_to_num; None is the raised ValueError. */
  function SymToNum(cfg: Config, s: Sym, env: Env): Out<Option<int>>
    requires cfg.Known(s)
  {
    if cfg.defs[s].Logical() then Out(Some(env.tri(s)), {TriOf(s)})
    else Out(cfg.parse(Base(cfg.defs[s].typ), env.str(s)), {StrOf(s)})
  }

  /** The relation branch of expr_value: numbers are compared as numbers, anything else as text. */
  function RelationOut(cfg: Config, rel: Rel, a: Sym, b: Sym, env: Env): Out<Tri>
    requires cfg.Known(a) && cfg.Known(b)
  {
    var text := Out(if Compare(rel, StrCmp(env.str(a), env.str(b))) then 2 else 0, {StrOf(a), StrOf(b)});
    if cfg.defs[a].typ.Str? && cfg.defs[b].typ.Str? then text
    else
      var x := SymToNum(cfg, a, env);
      if x.v.None? then Out(text.v, x.seen + text.seen)
      else
        var y := SymToNum(cfg, b, env);
        if y.v.None? then Out(text.v, x.seen + y.seen + text.seen)
        else Out(if Compare(rel, x.v.value - y.v.value) then 2 else 0, x.seen + y.seen)
  }

  predicate KnownExpr(cfg: Config, e: Expr) { forall s :: s in Syms(e) ==> cfg.Known(s) }

  /** expr_value. */
  function ExprOut(cfg: Config, e: Expr, env: Env): Out<Tri>
    requires KnownExpr(cfg, e)
  {
    match e
    case Item(s) => Out(env.tri(s), {TriOf(s)})
    case And(l, r) =>
      var x := ExprOut(cfg, l, env);
      if x.v == 0 then x
      else var y := ExprOut(cfg, r, env); Out(Min(x.v, y.v), x.seen + y.seen)
    case Or(l, r) =>
      var x := ExprOut(cfg, l, env);
      if x.v == 2 then x
      else var y := ExprOut(cfg, r, env); Out(Max(x.v, y.v), x.seen + y.seen)
    case Not(x) =>
      var o := ExprOut(cfg, x, env);
      Out(2 - o.v, o.seen)
    case Relation(rel, a, b) => RelationOut(cfg, rel, a, b, env)
  }

  /** Symbol.type: a tristate symbol is a bool unless MODULES is set. */
  function IsTristate(cfg: Config, t: Type, env: Env): Out<bool> {
    if t.Tristate? then Out(env.tri(cfg.modules) != 0, {TriOf(cfg.modules)}) else Out(false, {})
  }

  predicate KnownExprs(cfg: Config, es: seq<Expr>) { forall i :: 0 <= i < |es| ==> KnownExpr(cfg, es[i]) }
  predicate KnownDefaults(cfg: Config, ds: seq<Default>) {
    forall i :: 0 <= i < |ds| ==> KnownExpr(cfg, ds[i].value) && KnownExpr(cfg, ds[i].cond)
  }
  predicate KnownRanges(cfg: Config, rs: seq<Range>) {
    forall i :: 0 <= i < |rs| ==> cfg.Known(rs[i].low) && cfg.Known(rs[i].high) && KnownExpr(cfg, rs[i].cond)
  }

  /** The most permissive prompt condition. */
  function PromptsOut(cfg: Config, ps: seq<Expr>, acc: Tri, env: Env): Out<Tri>
    requires KnownExprs(cfg, ps)
  {
    if ps == [] then Out(acc, {})
    else
      var x := ExprOut(cfg, ps[0], env);
      var rest := PromptsOut(cfg, ps[1..], Max(acc, x.v), env);
      Out(rest.v, x.seen + rest.seen)
  }

  /** _visibility. */
  function VisOut(cfg: Config, d: Def, env: Env): Out<Tri>
    requires KnownExprs(cfg, d.prompts)
  {
    var p := PromptsOut(cfg, d.prompts, 0, env);
    if p.v != 1 then p
    else var t := IsTristate(cfg, d.typ, env); Out(if t.v then 1 else 2, p.seen + t.seen)
  }

  /** The first default whose condition holds, as a tristate value. */
  function DefaultsOut(cfg: Config, ds: seq<Default>, env: Env): Out<Tri>
    requires KnownDefaults(cfg, ds)
  {
    if ds == [] then Out(0, {})
    else
      var c := ExprOut(cfg, ds[0].cond, env);
      if c.v != 0 then
        var x := ExprOut(cfg, ds[0].value, env);
        Out(Min(x.v, c.v), c.seen + x.seen)
      else
        var rest := DefaultsOut(cfg, ds[1..], env);
        Out(rest.v, c.seen + rest.seen)
  }

  /** Weak reverse dependencies raise a default when the direct dependencies are met. */
  function ImpliedOut(cfg: Config, d: Def, val: Tri, env: Env): Out<Tri>
    requires KnownExpr(cfg, d.weakRevDep) && KnownExpr(cfg, d.directDep)
  {
    var weak := ExprOut(cfg, d.weakRevDep, env);
    if weak.v == 0 then Out(val, weak.seen)
    else
      var direct := ExprOut(cfg, d.directDep, env);
      Out(if direct.v != 0 then Max(weak.v, val) else val, weak.seen + direct.seen)
  }

  /** Reverse dependencies come first; then m turns into y for bools and implied symbols. */
  function SelectedOut(cfg: Config, d: Def, val: Tri, env: Env): Out<Tri>
    requires KnownExpr(cfg, d.weakRevDep) && KnownExpr(cfg, d.directDep) && KnownExpr(cfg, d.revDep)
  {
    var rev := ExprOut(cfg, d.revDep, env);
    var direct := if rev.v != 0 then ExprOut(cfg, d.directDep, env) else Out(0, {});
    var v1 := if rev.v != 0 then Max(rev.v, val) else val;
    var seen := rev.seen + direct.seen;
    if v1 != 1 then Out(v1, seen)
    else
      var t := IsTristate(cfg, d.typ, env);
      if !t.v then Out(2, seen + t.seen)
      else
        var weak := ExprOut(cfg, d.weakRevDep, env);
        Out(if weak.v == 2 then 2 else 1, seen + t.seen + weak.seen)
  }

  predicate KnownDef(cfg: Config, d: Def) {
    && KnownExprs(cfg, d.prompts) && KnownDefaults(cfg, d.defaults) && KnownRanges(cfg, d.ranges)
    && KnownExpr(cfg, d.revDep) && KnownExpr(cfg, d.weakRevDep) && KnownExpr(cfg, d.directDep)
  }

  /** The value before reverse dependencies: the user value cut down to the visibility, or the
      defaults and implies. */
  function ChosenOut(cfg: Config, d: Def, user: Option<UserValue>, vis: Tri, env: Env): Out<Tri>
    requires KnownDef(cfg, d)
  {
    if vis != 0 && user.Some? && user.value.Logic? then Out(Min(user.value.tri, vis), {})
    else
      var x := DefaultsOut(cfg, d.defaults, env);
      var y := ImpliedOut(cfg, d, x.v, env);
      Out(y.v, x.seen + y.seen)
  }

  /** Symbol.tri_value outside choices, for symbol `s` with visibility `vis`. */
  function TriOut(cfg: Config, s: Sym, d: Def, user: Option<UserValue>, vis: Tri, env: Env): Out<Tri>
    requires KnownDef(cfg, d)
  {
    if d.typ.Fixed? then Out(d.typ.tri, {})
    else if !d.Logical() then Out(0, {})
    else
      var x := ChosenOut(cfg, d, user, vis, env);
      var y := SelectedOut(cfg, d, x.v, env);
      Out(y.v, {VisOf(s)} + x.seen + y.seen)
  }

  function TriName(t: Tri): string { if t == 0 then "n" else if t == 1 then "m" else "y" }

  /** The first range whose condition holds. Text that is no number counts as zero. */
  function RangeOut(cfg: Config, rs: seq<Range>, base: nat, env: Env): Out<Option<(int, int)>>
    requires KnownRanges(cfg, rs)
  {
    if rs == [] then Out(None, {})
    else
      var c := ExprOut(cfg, rs[0].cond, env);
      if c.v != 0 then
        Out(Some((NumOrZero(cfg, base, env.str(rs[0].low)), NumOrZero(cfg, base, env.str(rs[0].high)))),
            c.seen + {StrOf(rs[0].low), StrOf(rs[0].high)})
      else
        var rest := RangeOut(cfg, rs[1..], base, env);
        Out(rest.v, c.seen + rest.seen)
  }

  function NumOrZero(cfg: Config, base: nat, text: string): int {
    match cfg.parse(base, text) case Some(n) => n case None => 0
  }

  /** The text of the first default whose condition holds. */
  function TextDefaultOut(cfg: Config, ds: seq<Default>, env: Env): Out<Option<string>>
    requires KnownDefaults(cfg, ds)
  {
    if ds == [] then Out(None, {})
    else
      var c := ExprOut(cfg, ds[0].cond, env);
      if c.v != 0 then
        if ds[0].value.Item? then Out(Some(env.str(ds[0].value.sym)), c.seen + {StrOf(ds[0].value.sym)})
        else Out(None, c.seen)
      else
        var rest := TextDefaultOut(cfg, ds[1..], env);
        Out(rest.v, c.seen + rest.seen)
  }

  /** A default brought into the active range. */
  function Clamp(cfg: Config, base: nat, val: Option<string>, range: Option<(int, int)>): string {
    var text := if val.Some? then val.value else "";
    var n := if val.Some? then NumOrZero(cfg, base, val.value) else 0;
    if range.None? then text
    else if n < range.value.0 then cfg.show(base, range.value.0)
    else if n > range.value.1 then cfg.show(base, range.value.1)
    else text
  }

  function InRange(n: int, range: Option<(int, int)>): bool {
    range.None? || range.value.0 <= n <= range.value.1
  }

  /** Int and hex values: a user value in range, else a default clamped into the range. */
  function NumberOut(cfg: Config, d: Def, user: Option<UserValue>, vis: Tri, env: Env): Out<string>
    requires KnownDef(cfg, d)
  {
    var base := Base(d.typ);
    var range := RangeOut(cfg, d.ranges, base, env);
    if vis != 0 && user.Some? && user.value.Text? && user.value.text != ""
       && InRange(NumOrZero(cfg, base, user.value.text), range.v)
    then Out(user.value.text, range.seen)
    else
      var x := TextDefaultOut(cfg, d.defaults, env);
      Out(Clamp(cfg, base, x.v, range.v), range.seen + x.seen)
  }

  function StringOut(cfg: Config, d: Def, user: Option<UserValue>, vis: Tri, env: Env): Out<string>
    requires KnownDef(cfg, d)
  {
    if vis != 0 && user.Some? && user.value.Text? then Out(user.value.text, {})
    else
      var x := TextDefaultOut(cfg, d.defaults, env);
      Out(if x.v.Some? then x.v.value else "", x.seen)
  }

  /** Symbol.str_value, for symbol `s` with visibility `vis` and tristate value `tri`. */
  function StrOut(cfg: Config, s: Sym, d: Def, user: Option<UserValue>, vis: Tri, tri: Tri, env: Env): Out<string>
    requires KnownDef(cfg, d)
  {
    if d.Logical() then Out(TriName(tri), {TriOf(s)})
    else if d.typ.Unknown? then Out(d.name, {})
    else
      var x := if d.Numeric() then NumberOut(cfg, d, user, vis, env) else StringOut(cfg, d, user, vis, env);
      Out(x.v, {VisOf(s)} + x.seen)
  }

  /** A configuration free of dependency loops: symbols can be numbered so that every definition
      mentions only lower ones. MODULES, which the type of every tristate symbol consults, comes
      before them. Only defined symbols have prompts or depend on anything but constants. */
  ghost predicate WellFormed(cfg: Config) {
    && cfg.Known(cfg.modules)
    && (forall s :: 0 <= s < |cfg.defs| ==> WellDefined(cfg, s))
  }

  ghost predicate WellDefined(cfg: Config, s: Sym)
    requires cfg.Known(s)
  {
    var d := cfg.defs[s];
    && KnownDef(cfg, d)
    && (forall z :: z in d.Refs() ==> z < s)
    && (d.typ.Tristate? ==> cfg.modules < s)
    && (!d.defined ==> forall z :: z in d.Refs() ==> cfg.defs[z].constant)
    && (d.constant ==> !d.defined)
    && (!d.defined ==> d.prompts == [] && (d.typ.Unknown? || d.typ.Fixed?))
  }

  // Every computation depends only on the cells it reports, and reports only cells of symbols
  // its definition mentions.

  ghost predicate Agree(e1: Env, e2: Env, seen: set<Cell>) {
    && (forall z: Sym :: TriOf(z) in seen ==> e1.tri(z) == e2.tri(z))
    && (forall z: Sym :: StrOf(z) in seen ==> e1.str(z) == e2.str(z))
  }

  ghost predicate Within(seen: set<Cell>, zs: set<Sym>) {
    forall c :: c in seen ==> c.s in zs && !c.VisOf?
  }

  lemma RelationLocal(cfg: Config, rel: Rel, a: Sym, b: Sym, e1: Env, e2: Env)
    requires cfg.Known(a) && cfg.Known(b)
    ensures Within(RelationOut(cfg, rel, a, b, e1).seen, {a, b})
    ensures Agree(e1, e2, RelationOut(cfg, rel, a, b, e1).seen) ==>
              RelationOut(cfg, rel, a, b, e2) == RelationOut(cfg, rel, a, b, e1)
  {
    hide StrCmp, Compare;
  }

  lemma {:induction false} ExprLocal(cfg: Config, e: Expr, e1: Env, e2: Env)
    requires KnownExpr(cfg, e)
    ensures Within(ExprOut(cfg, e, e1).seen, Syms(e))
    ensures Agree(e1, e2, ExprOut(cfg, e, e1).seen) ==> ExprOut(cfg, e, e2) == ExprOut(cfg, e, e1)
  {
    match e
    case Item(_) =>
    case And(l, r) =>
      ExprLocal(cfg, l, e1, e2);
      ExprLocal(cfg, r, e1, e2);
    case Or(l, r) =>
      ExprLocal(cfg, l, e1, e2);
      ExprLocal(cfg, r, e1, e2);
    case Not(x) => ExprLocal(cfg, x, e1, e2);
    case Relation(rel, a, b) => RelationLocal(cfg, rel, a, b, e1, e2);
  }

  function PromptSyms(ps: seq<Expr>): set<Sym> { set i, z | 0 <= i < |ps| && z in Syms(ps[i]) :: z }
  function DefaultSyms(ds: seq<Default>): set<Sym> {
    set i, z | 0 <= i < |ds| && z in Syms(ds[i].value) + Syms(ds[i].cond) :: z
  }
  function RangeSyms(rs: seq<Range>): set<Sym> {
    set i, z | 0 <= i < |rs| && z in {rs[i].low, rs[i].high} + Syms(rs[i].cond) :: z
  }

  lemma {:induction false} PromptsLocal(cfg: Config, ps: seq<Expr>, acc: Tri, e1: Env, e2: Env)
    requires KnownExprs(cfg, ps)
    ensures Within(PromptsOut(cfg, ps, acc, e1).seen, PromptSyms(ps))
    ensures Agree(e1, e2, PromptsOut(cfg, ps, acc, e1).seen) ==>
              PromptsOut(cfg, ps, acc, e2) == PromptsOut(cfg, ps, acc, e1)
  {
    if ps != [] {
      ExprLocal(cfg, ps[0], e1, e2);
      PromptsLocal(cfg, ps[1..], Max(acc, ExprOut(cfg, ps[0], e1).v), e1, e2);
      assert PromptSyms(ps) == Syms(ps[0]) + PromptSyms(ps[1..]) by { assert ps == [ps[0]] + ps[1..]; }
    }
  }

  lemma {:induction false} DefaultsLocal(cfg: Config, ds: seq<Default>, e1: Env, e2: Env)
    requires KnownDefaults(cfg, ds)
    ensures Within(DefaultsOut(cfg, ds, e1).seen, DefaultSyms(ds))
    ensures Agree(e1, e2, DefaultsOut(cfg, ds, e1).seen) ==> DefaultsOut(cfg, ds, e2) == DefaultsOut(cfg, ds, e1)
  {
    hide ExprOut;
    if ds != [] {
      ExprLocal(cfg, ds[0].cond, e1, e2);
      ExprLocal(cfg, ds[0].value, e1, e2);
      DefaultsLocal(cfg, ds[1..], e1, e2);
      assert DefaultSyms(ds) ==
          Syms(ds[0].value) + Syms(ds[0].cond) + DefaultSyms(ds[1..]) by { assert ds == [ds[0]] + ds[1..]; }
    }
  }

  lemma {:induction false} TextDefaultLocal(cfg: Config, ds: seq<Default>, e1: Env, e2: Env)
    requires KnownDefaults(cfg, ds)
    ensures Within(TextDefaultOut(cfg, ds, e1).seen, DefaultSyms(ds))
    ensures Agree(e1, e2, TextDefaultOut(cfg, ds, e1).seen) ==>
        TextDefaultOut(cfg, ds, e2) == TextDefaultOut(cfg, ds, e1)
  {
    hide ExprOut;
    if ds != [] {
      ExprLocal(cfg, ds[0].cond, e1, e2);
      TextDefaultLocal(cfg, ds[1..], e1, e2);
      assert DefaultSyms(ds) ==
          Syms(ds[0].value) + Syms(ds[0].cond) + DefaultSyms(ds[1..]) by { assert ds == [ds[0]] + ds[1..]; }
    }
  }

  lemma RangeHead(rs: seq<Range>)
    requires rs != []
    ensures RangeSyms(rs) == {rs[0].low, rs[0].high} + Syms(rs[0].cond) + RangeSyms(rs[1..])
  {
    assert rs == [rs[0]] + rs[1..];
  }

  lemma {:induction false} RangeWithin(cfg: Config, rs: seq<Range>, base: nat, e: Env)
    requires KnownRanges(cfg, rs)
    ensures Within(RangeOut(cfg, rs, base, e).seen, RangeSyms(rs))
  {
    hide ExprOut, NumOrZero;
    if rs != [] {
      ExprLocal(cfg, rs[0].cond, e, e);
      RangeWithin(cfg, rs[1..], base, e);
      RangeHead(rs);
    }
  }

  lemma {:induction false} RangeSame(cfg: Config, rs: seq<Range>, base: nat, e1: Env, e2: Env)
    requires KnownRanges(cfg, rs) && Agree(e1, e2, RangeOut(cfg, rs, base, e1).seen)
    ensures RangeOut(cfg, rs, base, e2) == RangeOut(cfg, rs, base, e1)
  {
    hide ExprOut, NumOrZero;
    if rs != [] {
      var c := ExprOut(cfg, rs[0].cond, e1);
      ExprLocal(cfg, rs[0].cond, e1, e2);
      assert Agree(e1, e2, c.seen);
      if c.v == 0 {
        RangeSame(cfg, rs[1..], base, e1, e2);
      } else {
        assert StrOf(rs[0].low) in RangeOut(cfg, rs, base, e1).seen &&
            StrOf(rs[0].high) in RangeOut(cfg, rs, base, e1).seen;
      }
    }
  }

  lemma RangeLocal(cfg: Config, rs: seq<Range>, base: nat, e1: Env, e2: Env)
    requires KnownRanges(cfg, rs)
    ensures Within(RangeOut(cfg, rs, base, e1).seen, RangeSyms(rs))
    ensures Agree(e1, e2, RangeOut(cfg, rs, base, e1).seen) ==>
        RangeOut(cfg, rs, base, e2) == RangeOut(cfg, rs, base, e1)
  {
    hide RangeOut, Agree, Within;
    RangeWithin(cfg, rs, base, e1);
    if Agree(e1, e2, RangeOut(cfg, rs, base, e1).seen) {
      RangeSame(cfg, rs, base, e1, e2);
    }
  }

  /** The symbols a definition's values may depend on, MODULES included. */
  ghost function Sources(cfg: Config, d: Def): set<Sym> {
    d.Refs() + (if d.typ.Tristate? then {cfg.modules} else {})
  }

  lemma VisLocal(cfg: Config, d: Def, e1: Env, e2: Env)
    requires KnownExprs(cfg, d.prompts)
    ensures Within(VisOut(cfg, d, e1).seen, Sources(cfg, d))
    ensures Agree(e1, e2, VisOut(cfg, d, e1).seen) ==> VisOut(cfg, d, e2) == VisOut(cfg, d, e1)
  {
    hide PromptsOut;
    PromptsLocal(cfg, d.prompts, 0, e1, e2);
  }

  lemma ImpliedLocal(cfg: Config, d: Def, val: Tri, e1: Env, e2: Env)
    requires KnownDef(cfg, d)
    ensures Within(ImpliedOut(cfg, d, val, e1).seen, Sources(cfg, d))
    ensures Agree(e1, e2, ImpliedOut(cfg, d, val, e1).seen) ==>
        ImpliedOut(cfg, d, val, e2) == ImpliedOut(cfg, d, val, e1)
  {
    hide ExprOut;
    ExprLocal(cfg, d.weakRevDep, e1, e2);
    ExprLocal(cfg, d.directDep, e1, e2);
  }

  lemma SelectedLocal(cfg: Config, d: Def, val: Tri, e1: Env, e2: Env)
    requires KnownDef(cfg, d)
    ensures Within(SelectedOut(cfg, d, val, e1).seen, Sources(cfg, d))
    ensures Agree(e1, e2, SelectedOut(cfg, d, val, e1).seen) ==>
        SelectedOut(cfg, d, val, e2) == SelectedOut(cfg, d, val, e1)
  {
    hide ExprOut;
    ExprLocal(cfg, d.weakRevDep, e1, e2);
    ExprLocal(cfg, d.directDep, e1, e2);
    ExprLocal(cfg, d.revDep, e1, e2);
  }

  lemma ChosenLocal(cfg: Config, d: Def, user: Option<UserValue>, vis: Tri, e1: Env, e2: Env)
    requires KnownDef(cfg, d)
    ensures Within(ChosenOut(cfg, d, user, vis, e1).seen, Sources(cfg, d))
    ensures Agree(e1, e2, ChosenOut(cfg, d, user, vis, e1).seen) ==>
              ChosenOut(cfg, d, user, vis, e2) == ChosenOut(cfg, d, user, vis, e1)
  {
    hide DefaultsOut, ImpliedOut;
    DefaultsLocal(cfg, d.defaults, e1, e2);
    ImpliedLocal(cfg, d, DefaultsOut(cfg, d.defaults, e1).v, e1, e2);
  }

  lemma TriLocal(cfg: Config, s: Sym, d: Def, user: Option<UserValue>, vis: Tri, e1: Env, e2: Env)
    requires KnownDef(cfg, d)
    ensures Within(TriOut(cfg, s, d, user, vis, e1).seen - {VisOf(s)}, Sources(cfg, d))
    ensures Agree(e1, e2, TriOut(cfg, s, d, user, vis, e1).seen) ==>
              TriOut(cfg, s, d, user, vis, e2) == TriOut(cfg, s, d, user, vis, e1)
  {
    hide ChosenOut, SelectedOut, Def.Refs;
    ChosenLocal(cfg, d, user, vis, e1, e2);
    SelectedLocal(cfg, d, ChosenOut(cfg, d, user, vis, e1).v, e1, e2);
  }

  lemma NumberLocal(cfg: Config, d: Def, user: Option<UserValue>, vis: Tri, e1: Env, e2: Env)
    requires KnownDef(cfg, d)
    ensures Within(NumberOut(cfg, d, user, vis, e1).seen, Sources(cfg, d))
    ensures Agree(e1, e2, NumberOut(cfg, d, user, vis, e1).seen) ==>
              NumberOut(cfg, d, user, vis, e2) == NumberOut(cfg, d, user, vis, e1)
  {
    hide RangeOut, TextDefaultOut, Clamp, NumOrZero;
    RangeLocal(cfg, d.ranges, Base(d.typ), e1, e2);
    TextDefaultLocal(cfg, d.defaults, e1, e2);
  }

  lemma StrLocal(cfg: Config, s: Sym, d: Def, user: Option<UserValue>, vis: Tri, tri: Tri, e1: Env, e2: Env)
    requires KnownDef(cfg, d)
    ensures Within(StrOut(cfg, s, d, user, vis, tri, e1).seen - {VisOf(s), TriOf(s)}, Sources(cfg, d))
    ensures Agree(e1, e2, StrOut(cfg, s, d, user, vis, tri, e1).seen) ==>
              StrOut(cfg, s, d, user, vis, tri, e2) == StrOut(cfg, s, d, user, vis, tri, e1)
  {
    hide NumberOut, TextDefaultOut;
    NumberLocal(cfg, d, user, vis, e1, e2);
    TextDefaultLocal(cfg, d.defaults, e1, e2);
  }

  // The values of a whole configuration, from scratch

  /** The values of the symbols below `s`. */
  ghost function Below(w: World, s: Sym): Env
    requires WellFormed(w.cfg) && s <= |w.cfg.defs|
    decreases s, 0
  {
    Env((z: Sym) => if z < s then TriVal(w, z) else 0, (z: Sym) => if z < s then StrVal(w, z) else "")
  }

  ghost function User(w: World, s: Sym): Option<UserValue> { if s in w.user then Some(w.user[s]) else None }

  ghost function VisAt(w: World, s: Sym): Out<Tri>
    requires WellFormed(w.cfg) && w.cfg.Known(s)
    decreases s, 1
  {
    assert WellDefined(w.cfg, s);
    VisOut(w.cfg, w.cfg.defs[s], Below(w, s))
  }

  ghost function TriAt(w: World, s: Sym): Out<Tri>
    requires WellFormed(w.cfg) && w.cfg.Known(s)
    decreases s, 2
  {
    assert WellDefined(w.cfg, s);
    TriOut(w.cfg, s, w.cfg.defs[s], User(w, s), VisAt(w, s).v, Below(w, s))
  }

  ghost function StrAt(w: World, s: Sym): Out<string>
    requires WellFormed(w.cfg) && w.cfg.Known(s)
    decreases s, 3
  {
    assert WellDefined(w.cfg, s);
    StrOut(w.cfg, s, w.cfg.defs[s], User(w, s), VisAt(w, s).v, TriAt(w, s).v, Below(w, s))
  }

  /** The visibility, tristate value and string value of a symbol. */
  ghost function Visibility(w: World, s: Sym): Tri
    requires WellFormed(w.cfg) && w.cfg.Known(s)
  {
    VisAt(w, s).v
  }

  ghost function TriVal(w: World, s: Sym): Tri
    requires WellFormed(w.cfg) && w.cfg.Known(s)
    decreases s, 4
  {
    TriAt(w, s).v
  }

  ghost function StrVal(w: World, s: Sym): string
    requires WellFormed(w.cfg) && w.cfg.Known(s)
    decreases s, 4
  {
    StrAt(w, s).v
  }
}
