/** The lazily filled value caches of kconfiglib.py and their early-stopping invalidation. */
module KconfigCache {
  import opened Wrappers
  import opened KconfigExpr
  import opened KconfigValues

  /** The `_cached_vis`, `_cached_tri_val` and `_cached_str_val` of all symbols; a symbol outside a
      map has None there. */
  datatype Caches = Caches(vis: map<Sym, Tri>, tri: map<Sym, Tri>, str: map<Sym, string>)

  predicate Has(c: Caches, cell: Cell) {
    match cell
    case VisOf(s) => s in c.vis
    case TriOf(s) => s in c.tri
    case StrOf(s) => s in c.str
  }

  ghost predicate Covered(c: Caches, seen: set<Cell>) { forall d :: d in seen ==> Has(c, d) }

  ghost predicate VisGood(w: World, c: Caches, s: Sym)
    requires WellFormed(w.cfg)
  {
    w.cfg.Known(s) && s in c.vis && c.vis[s] == Visibility(w, s) && Covered(c, VisAt(w, s).seen)
  }

  ghost predicate TriGood(w: World, c: Caches, s: Sym)
    requires WellFormed(w.cfg)
  {
    w.cfg.Known(s) && s in c.tri && c.tri[s] == TriVal(w, s) && Covered(c, TriAt(w, s).seen)
  }

  ghost predicate StrGood(w: World, c: Caches, s: Sym)
    requires WellFormed(w.cfg)
  {
    w.cfg.Known(s) && s in c.str && c.str[s] == StrVal(w, s) && Covered(c, StrAt(w, s).seen)
  }

  /** Every cached value is the one computed from scratch, and every value looked at on the way to
      it is cached too. */
  ghost predicate Good(w: World, c: Caches)
    requires WellFormed(w.cfg)
  {
    && (forall s :: s in c.vis ==> VisGood(w, c, s))
    && (forall s :: s in c.tri ==> TriGood(w, c, s))
    && (forall s :: s in c.str ==> StrGood(w, c, s))
  }

  /** `_dependents`: every defined symbol is recorded with each non-constant symbol it mentions. */
  ghost predicate Recorded(cfg: Config, deps: map<Sym, set<Sym>>) {
    forall x: Sym :: cfg.Known(x) && cfg.defs[x].defined ==> RecordedFor(cfg, deps, x, cfg.defs[x].Refs())
  }

  ghost predicate RecordedFor(cfg: Config, deps: map<Sym, set<Sym>>, x: Sym, refs: set<Sym>) {
    forall z :: z in refs && cfg.Known(z) && !cfg.defs[z].constant ==> z in deps && x in deps[z]
  }

  /** `deps2` records all that `deps` does, and besides only symbol `x`. */
  ghost predicate Extends(deps: map<Sym, set<Sym>>, deps2: map<Sym, set<Sym>>, x: Sym) {
    && (forall z :: z in deps ==> z in deps2 && deps[z] <= deps2[z])
    && (forall z, y :: z in deps2 && y in deps2[z] && y != x ==> z in deps && y in deps[z])
  }

  lemma ExtendsKeeps(cfg: Config, deps: map<Sym, set<Sym>>, deps2: map<Sym, set<Sym>>, x: Sym, y: Sym, refs: set<Sym>)
    requires Extends(deps, deps2, x)
    ensures RecordedFor(cfg, deps, y, refs) ==> RecordedFor(cfg, deps2, y, refs)
    ensures OnlyDefined(cfg, deps) && cfg.Known(x) && cfg.defs[x].defined ==> OnlyDefined(cfg, deps2)
  {
  }

  /** Only defined symbols are anybody's dependents. */
  ghost predicate OnlyDefined(cfg: Config, deps: map<Sym, set<Sym>>) {
    forall z, x :: z in deps && x in deps[z] ==> cfg.Known(x) && cfg.defs[x].defined
  }

  function Drop(c: Caches, gone: set<Sym>): Caches {
    Caches(c.vis - gone, c.tri - gone, c.str - gone)
  }

  /** What an invalidation that dropped the symbols of `gone` leaves behind: no recorded dependent
      of a dropped symbol still has a cached visibility, and MODULES takes everything with it. */
  ghost predicate Cut(cfg: Config, deps: map<Sym, set<Sym>>, c: Caches, gone: set<Sym>, c2: Caches) {
    && c2 == Drop(c, gone)
    && (forall z: Sym :: z in gone ==> cfg.Known(z) && cfg.defs[z].defined)
    && (forall z, x :: z in gone && z in deps && x in deps[z] ==> x !in c2.vis)
    && (cfg.modules in gone ==> forall x: Sym :: cfg.Known(x) && cfg.defs[x].defined ==> x in gone)
  }

  /** The user values differ at most for dropped symbols and symbols without a prompt. */
  ghost predicate SameChoice(w: World, w2: World, gone: set<Sym>) {
    && w2.cfg == w.cfg
    && forall s: Sym :: w.cfg.Known(s) && s !in gone && w.cfg.defs[s].prompts != [] ==> User(w2, s) == User(w, s)
  }

  /** A value cached for `x` that looked at `z` survives only if the cached values of `z` do. */
  lemma SourcesKept(cfg: Config, deps: map<Sym, set<Sym>>, c: Caches, gone: set<Sym>, c2: Caches, x: Sym, z: Sym)
    requires WellFormed(cfg) && Recorded(cfg, deps) && Cut(cfg, deps, c, gone, c2)
    requires cfg.Known(x) && x in c2.vis && z in Sources(cfg, cfg.defs[x])
    ensures z !in gone && z < x
  {
    hide Def.Refs, KnownDef;
    assert WellDefined(cfg, x);
    assert WellDefined(cfg, z);
  }

  /** The values of a symbol that keeps a cached value are the same in both worlds, and so is what
      was looked at to get them. */
  ghost predicate Same(w: World, w2: World, c2: Caches, s: Sym)
    requires WellFormed(w.cfg) && w2.cfg == w.cfg && w.cfg.Known(s)
  {
    && (s in c2.vis ==> VisAt(w2, s) == VisAt(w, s))
    && (s in c2.tri ==> TriAt(w2, s) == TriAt(w, s))
    && (s in c2.str ==> StrAt(w2, s) == StrAt(w, s))
  }

  /** What looking at the surviving cells of lower symbols shows is the same in both worlds. */
  lemma AgreeBelow(w: World, w2: World, c2: Caches, s: Sym, seen: set<Cell>)
    requires WellFormed(w.cfg) && w2.cfg == w.cfg && w.cfg.Known(s)
    requires forall z: Sym :: z < s ==> Same(w, w2, c2, z)
    requires Covered(c2, seen)
    ensures Agree(Below(w, s), Below(w2, s), seen)
  {
    hide VisAt, TriAt, StrAt, WellFormed;
    forall z: Sym | TriOf(z) in seen ensures Below(w, s).tri(z) == Below(w2, s).tri(z) {
      if z < s {
        assert Has(c2, TriOf(z)) && Same(w, w2, c2, z);
      }
    }
    forall z: Sym | StrOf(z) in seen ensures Below(w, s).str(z) == Below(w2, s).str(z) {
      if z < s {
        assert Has(c2, StrOf(z)) && Same(w, w2, c2, z);
      }
    }
  }

  /** One invalidation, from the caches `c` of world `w` to the caches `c2` of world `w2`. */
  ghost predicate Step(w: World, w2: World, deps: map<Sym, set<Sym>>, c: Caches, gone: set<Sym>, c2: Caches) {
    && WellFormed(w.cfg) && w2.cfg == w.cfg && Good(w, c) && Recorded(w.cfg, deps)
    && Cut(w.cfg, deps, c, gone, c2) && SameChoice(w, w2, gone)
  }

  lemma SeenKept(cfg: Config, deps: map<Sym, set<Sym>>, c: Caches, gone: set<Sym>, c2: Caches, s: Sym, seen: set<Cell>)
    requires WellFormed(cfg) && Recorded(cfg, deps) && Cut(cfg, deps, c, gone, c2)
    requires cfg.Known(s) && s in c2.vis
    requires Covered(c, seen) && Within(seen - {VisOf(s), TriOf(s)}, Sources(cfg, cfg.defs[s]))
    ensures Covered(c2, seen)
  {
    hide WellFormed, Recorded, Sources;
    forall d | d in seen ensures Has(c2, d) {
      if d != VisOf(s) && d != TriOf(s) {
        SourcesKept(cfg, deps, c, gone, c2, s, d.s);
      }
    }
  }

  lemma VisKept(w: World, w2: World, deps: map<Sym, set<Sym>>, c: Caches, gone: set<Sym>, c2: Caches, s: Sym)
    requires Step(w, w2, deps, c, gone, c2) && w.cfg.Known(s) && s in c2.vis
    requires forall z: Sym :: z < s ==> Same(w, w2, c2, z)
    ensures VisAt(w2, s) == VisAt(w, s) && Covered(c2, VisAt(w, s).seen)
  {
    hide Same, Recorded, SameChoice, Within, Agree, Covered, VisOut, Below, Sources, WellFormed;
    var d := w.cfg.defs[s];
    VisDef(w, s);
    VisDef(w2, s);
    assert VisGood(w, c, s);
    VisLocal(w.cfg, d, Below(w, s), Below(w2, s));
    WithinLess(VisAt(w, s).seen, s, Sources(w.cfg, d));
    SeenKept(w.cfg, deps, c, gone, c2, s, VisAt(w, s).seen);
    AgreeBelow(w, w2, c2, s, VisAt(w, s).seen);
  }

  lemma VisDef(w: World, s: Sym)
    requires WellFormed(w.cfg) && w.cfg.Known(s)
    ensures KnownDef(w.cfg, w.cfg.defs[s])
    ensures VisAt(w, s) == VisOut(w.cfg, w.cfg.defs[s], Below(w, s))
    ensures TriAt(w, s) == TriOut(w.cfg, s, w.cfg.defs[s], User(w, s), Visibility(w, s), Below(w, s))
    ensures StrAt(w, s) == StrOut(w.cfg, s, w.cfg.defs[s], User(w, s), Visibility(w, s), TriVal(w, s), Below(w, s))
  {
    hide VisOut, TriOut, StrOut, Below, KnownDef;
    assert WellDefined(w.cfg, s);
  }

  lemma WithinLess(seen: set<Cell>, s: Sym, zs: set<Sym>)
    requires Within(seen - {VisOf(s), TriOf(s)}, zs) || Within(seen - {VisOf(s)}, zs) || Within(seen, zs)
    ensures Within(seen - {VisOf(s), TriOf(s)}, zs)
  {
  }

  /** An invisible symbol's value ignores what the user chose. */
  lemma InvisibleIgnoresUser(cfg: Config, s: Sym, d: Def, u1: Option<UserValue>, u2: Option<UserValue>, tri: Tri,
                             env: Env)
    requires KnownDef(cfg, d)
    ensures TriOut(cfg, s, d, u1, 0, env) == TriOut(cfg, s, d, u2, 0, env)
    ensures StrOut(cfg, s, d, u1, 0, tri, env) == StrOut(cfg, s, d, u2, 0, tri, env)
  {
    hide KnownDef, SelectedOut, DefaultsOut, ImpliedOut, RangeOut, TextDefaultOut, Clamp;
  }

  lemma NoPromptInvisible(w: World, s: Sym)
    requires WellFormed(w.cfg) && w.cfg.Known(s) && w.cfg.defs[s].prompts == []
    ensures Visibility(w, s) == 0
  {
    VisDef(w, s);
  }

  /** Two worlds in which a symbol's user values may be taken for one another. */
  lemma UserKept(w: World, w2: World, gone: set<Sym>, s: Sym)
    requires WellFormed(w.cfg) && SameChoice(w, w2, gone) && w.cfg.Known(s) && s !in gone
    requires Visibility(w2, s) == Visibility(w, s)
    ensures KnownDef(w.cfg, w.cfg.defs[s])
    ensures TriAt(w2, s) == TriOut(w.cfg, s, w.cfg.defs[s], User(w, s), Visibility(w, s), Below(w2, s))
    ensures StrAt(w2, s) == StrOut(w.cfg, s, w.cfg.defs[s], User(w, s), Visibility(w, s), TriVal(w2, s), Below(w2, s))
  {
    hide WellFormed, Below, VisOut, TriOut, StrOut, KnownDef;
    var d := w.cfg.defs[s];
    VisDef(w2, s);
    if d.prompts == [] {
      NoPromptInvisible(w, s);
      InvisibleIgnoresUser(w.cfg, s, d, User(w, s), User(w2, s), TriVal(w2, s), Below(w2, s));
    }
  }

  lemma TriSeesVis(w: World, s: Sym)
    requires WellFormed(w.cfg) && w.cfg.Known(s)
    ensures VisOf(s) in TriAt(w, s).seen ||
        (TriAt(w, s).seen == {} && !(w.cfg.defs[s].typ.Bool? || w.cfg.defs[s].typ.Tristate?))
  {
    VisDef(w, s);
  }

  lemma TriKept(w: World, w2: World, deps: map<Sym, set<Sym>>, c: Caches, gone: set<Sym>, c2: Caches, s: Sym)
    requires Step(w, w2, deps, c, gone, c2) && w.cfg.Known(s) && s in c2.tri
    requires forall z: Sym :: z < s ==> Same(w, w2, c2, z)
    ensures TriAt(w2, s) == TriAt(w, s) && Covered(c2, TriAt(w, s).seen)
  {
    hide Same, Recorded, SameChoice, Within, Agree, TriOut, Below, Sources, WellFormed, Visibility, VisAt, TriAt;
    var d := w.cfg.defs[s];
    assert TriGood(w, c, s);
    TriSeesVis(w, s);
    VisDef(w, s);
    VisDef(w2, s);
    if TriAt(w, s).seen == {} && !(d.typ.Bool? || d.typ.Tristate?) {
      StaticTri(w, w2, s);
    } else {
      assert Has(c, VisOf(s));
      VisKept(w, w2, deps, c, gone, c2, s);
      SameVisibility(w, w2, s);
      UserKept(w, w2, gone, s);
      TriLocal(w.cfg, s, d, User(w, s), Visibility(w, s), Below(w, s), Below(w2, s));
      WithinLess(TriAt(w, s).seen, s, Sources(w.cfg, d));
      SeenKept(w.cfg, deps, c, gone, c2, s, TriAt(w, s).seen);
      AgreeBelow(w, w2, c2, s, TriAt(w, s).seen);
    }
  }

  lemma SameVisibility(w: World, w2: World, s: Sym)
    requires WellFormed(w.cfg) && w2.cfg == w.cfg && w.cfg.Known(s) && VisAt(w2, s) == VisAt(w, s)
    ensures Visibility(w2, s) == Visibility(w, s)
  {
  }

  lemma StaticTri(w: World, w2: World, s: Sym)
    requires WellFormed(w.cfg) && w2.cfg == w.cfg && w.cfg.Known(s)
    requires !(w.cfg.defs[s].typ.Bool? || w.cfg.defs[s].typ.Tristate?)
    ensures TriAt(w2, s) == TriAt(w, s) && TriAt(w, s).seen == {}
  {
    VisDef(w, s);
    VisDef(w2, s);
  }

  lemma StrSees(w: World, s: Sym)
    requires WellFormed(w.cfg) && w.cfg.Known(s)
    ensures var d := w.cfg.defs[s];
      && (d.Logical() ==> StrAt(w, s) == Out(TriName(TriVal(w, s)), {TriOf(s)}))
      && (d.typ.Unknown? ==> StrAt(w, s) == Out(d.name, {}))
      && (!d.Logical() && !d.typ.Unknown? ==> VisOf(s) in StrAt(w, s).seen)
  {
    hide NumberOut, StringOut;
    VisDef(w, s);
  }

  lemma StrKept(w: World, w2: World, deps: map<Sym, set<Sym>>, c: Caches, gone: set<Sym>, c2: Caches, s: Sym)
    requires Step(w, w2, deps, c, gone, c2) && w.cfg.Known(s) && s in c2.str
    requires forall z: Sym :: z < s ==> Same(w, w2, c2, z)
    ensures StrAt(w2, s) == StrAt(w, s) && Covered(c2, StrAt(w, s).seen)
  {
    hide Same, Recorded, SameChoice, Within, Agree, StrOut, TriOut, Below, Sources, WellFormed, Visibility, VisAt,
         TriAt, StrAt, KnownDef;
    var d := w.cfg.defs[s];
    assert StrGood(w, c, s);
    StrSees(w, s);
    StrSees(w2, s);
    if d.Logical() {
      assert Has(c, TriOf(s));
      TriKept(w, w2, deps, c, gone, c2, s);
    } else if !d.typ.Unknown? {
      assert Has(c, VisOf(s));
      StrKeptVisible(w, w2, deps, c, gone, c2, s);
    }
  }

  lemma StrKeptVisible(w: World, w2: World, deps: map<Sym, set<Sym>>, c: Caches, gone: set<Sym>, c2: Caches, s: Sym)
    requires Step(w, w2, deps, c, gone, c2) && w.cfg.Known(s) && s in c2.str && s in c2.vis
    requires forall z: Sym :: z < s ==> Same(w, w2, c2, z)
    requires !w.cfg.defs[s].Logical()
    ensures StrAt(w2, s) == StrAt(w, s) && Covered(c2, StrAt(w, s).seen)
  {
    hide Same, Recorded, SameChoice, Within, Agree, StrOut, TriOut, Below, Sources, WellFormed, Visibility, VisAt,
         TriAt, StrAt, KnownDef;
    var d := w.cfg.defs[s];
    assert StrGood(w, c, s);
    VisDef(w, s);
    VisKept(w, w2, deps, c, gone, c2, s);
    SameVisibility(w, w2, s);
    UserKept(w, w2, gone, s);
    StaticTri(w, w2, s);
    SameTri(w, w2, s);
    StrLocal(w.cfg, s, d, User(w, s), Visibility(w, s), TriVal(w, s), Below(w, s), Below(w2, s));
    WithinLess(StrAt(w, s).seen, s, Sources(w.cfg, d));
    SeenKept(w.cfg, deps, c, gone, c2, s, StrAt(w, s).seen);
    AgreeBelow(w, w2, c2, s, StrAt(w, s).seen);
  }

  lemma SameTri(w: World, w2: World, s: Sym)
    requires WellFormed(w.cfg) && w2.cfg == w.cfg && w.cfg.Known(s) && TriAt(w2, s) == TriAt(w, s)
    ensures TriVal(w2, s) == TriVal(w, s)
  {
  }

  /** Surviving values are still right, by induction along the dependency order. */
  lemma {:induction false} Survives(w: World, w2: World, deps: map<Sym, set<Sym>>, c: Caches, gone: set<Sym>,
                                    c2: Caches, s: Sym)
    requires Step(w, w2, deps, c, gone, c2) && w.cfg.Known(s)
    ensures Same(w, w2, c2, s)
    ensures s in c2.vis ==> Covered(c2, VisAt(w, s).seen)
    ensures s in c2.tri ==> Covered(c2, TriAt(w, s).seen)
    ensures s in c2.str ==> Covered(c2, StrAt(w, s).seen)
    decreases s
  {
    hide Step, VisAt, TriAt, StrAt, Covered, WellFormed;
    StepConfig(w, w2, deps, c, gone, c2);
    forall z: Sym | z < s ensures Same(w, w2, c2, z) {
      Survives(w, w2, deps, c, gone, c2, z);
    }
    if s in c2.vis {
      VisKept(w, w2, deps, c, gone, c2, s);
    }
    if s in c2.tri {
      TriKept(w, w2, deps, c, gone, c2, s);
    }
    if s in c2.str {
      StrKept(w, w2, deps, c, gone, c2, s);
    }
  }

  lemma StepConfig(w: World, w2: World, deps: map<Sym, set<Sym>>, c: Caches, gone: set<Sym>, c2: Caches)
    requires Step(w, w2, deps, c, gone, c2)
    ensures WellFormed(w.cfg) && w2.cfg == w.cfg
    ensures forall s :: s in c2.vis ==> w.cfg.Known(s) && s in c.vis && c2.vis[s] == c.vis[s] == Visibility(w, s)
    ensures forall s :: s in c2.tri ==> w.cfg.Known(s) && s in c.tri && c2.tri[s] == c.tri[s] == TriVal(w, s)
    ensures forall s :: s in c2.str ==> w.cfg.Known(s) && s in c.str && c2.str[s] == c.str[s] == StrVal(w, s)
  {
    hide WellFormed, Recorded, SameChoice, Covered, VisAt, TriAt, StrAt, Visibility, TriVal, StrVal;
    assert forall s :: s in c2.vis ==> s in c.vis && VisGood(w, c, s);
    assert forall s :: s in c2.tri ==> s in c.tri && TriGood(w, c, s);
    assert forall s :: s in c2.str ==> s in c.str && StrGood(w, c, s);
  }

  /** The early-stopping invalidation is enough: what it leaves cached is right in the new world. */
  lemma InvalidationSound(w: World, w2: World, deps: map<Sym, set<Sym>>, c: Caches, gone: set<Sym>, c2: Caches)
    requires Step(w, w2, deps, c, gone, c2)
    ensures Good(w2, c2)
  {
    hide Step, VisAt, TriAt, StrAt, Covered, WellFormed;
    StepConfig(w, w2, deps, c, gone, c2);
    forall s | s in c2.vis ensures VisGood(w2, c2, s) {
      Survives(w, w2, deps, c, gone, c2, s);
    }
    forall s | s in c2.tri ensures TriGood(w2, c2, s) {
      Survives(w, w2, deps, c, gone, c2, s);
    }
    forall s | s in c2.str ensures StrGood(w2, c2, s) {
      Survives(w, w2, deps, c, gone, c2, s);
    }
  }

  // Filling the caches

  ghost predicate Grown(c: Caches, c2: Caches) {
    && (forall s :: s in c.vis ==> s in c2.vis)
    && (forall s :: s in c.tri ==> s in c2.tri)
    && (forall s :: s in c.str ==> s in c2.str)
  }

  /** `r` is the value of a computation whose every lookup is cached. */
  ghost predicate Evaluated<V>(c: Caches, o: Out<V>, r: V) { r == o.v && Covered(c, o.seen) }

  lemma CoveredGrown(c: Caches, c2: Caches, seen: set<Cell>)
    requires Covered(c, seen) && Grown(c, c2)
    ensures Covered(c2, seen)
  {
    forall d | d in seen ensures Has(c2, d) {
      assert Has(c, d);
    }
  }

  lemma GrownGood(w: World, c: Caches, c2: Caches)
    requires WellFormed(w.cfg) && Good(w, c) && Grown(c, c2)
    ensures forall s :: s in c.vis ==> Covered(c2, VisAt(w, s).seen)
    ensures forall s :: s in c.tri ==> Covered(c2, TriAt(w, s).seen)
    ensures forall s :: s in c.str ==> Covered(c2, StrAt(w, s).seen)
  {
    hide VisAt, TriAt, StrAt, Covered, WellFormed, Grown;
    forall s | s in c.vis ensures Covered(c2, VisAt(w, s).seen) {
      assert VisGood(w, c, s);
      CoveredGrown(c, c2, VisAt(w, s).seen);
    }
    forall s | s in c.tri ensures Covered(c2, TriAt(w, s).seen) {
      assert TriGood(w, c, s);
      CoveredGrown(c, c2, TriAt(w, s).seen);
    }
    forall s | s in c.str ensures Covered(c2, StrAt(w, s).seen) {
      assert StrGood(w, c, s);
      CoveredGrown(c, c2, StrAt(w, s).seen);
    }
  }

  lemma AddVis(w: World, c: Caches, s: Sym)
    requires WellFormed(w.cfg) && Good(w, c) && w.cfg.Known(s) && Covered(c, VisAt(w, s).seen)
    ensures Good(w, c.(vis := c.vis[s := Visibility(w, s)])) && Grown(c, c.(vis := c.vis[s := Visibility(w, s)]))
  {
    hide VisAt, TriAt, StrAt, Covered, WellFormed, Visibility;
    var c2 := c.(vis := c.vis[s := Visibility(w, s)]);
    GrownGood(w, c, c2);
    CoveredGrown(c, c2, VisAt(w, s).seen);
    GoodIfGrown(w, c, c2);
  }

  lemma AddTri(w: World, c: Caches, s: Sym)
    requires WellFormed(w.cfg) && Good(w, c) && w.cfg.Known(s) && Covered(c, TriAt(w, s).seen)
    ensures Good(w, c.(tri := c.tri[s := TriVal(w, s)])) && Grown(c, c.(tri := c.tri[s := TriVal(w, s)]))
  {
    hide VisAt, TriAt, StrAt, Covered, WellFormed, TriVal;
    var c2 := c.(tri := c.tri[s := TriVal(w, s)]);
    GrownGood(w, c, c2);
    CoveredGrown(c, c2, TriAt(w, s).seen);
    GoodIfGrown(w, c, c2);
  }

  lemma AddStr(w: World, c: Caches, s: Sym)
    requires WellFormed(w.cfg) && Good(w, c) && w.cfg.Known(s) && Covered(c, StrAt(w, s).seen)
    ensures Good(w, c.(str := c.str[s := StrVal(w, s)])) && Grown(c, c.(str := c.str[s := StrVal(w, s)]))
  {
    hide VisAt, TriAt, StrAt, Covered, WellFormed, StrVal;
    var c2 := c.(str := c.str[s := StrVal(w, s)]);
    GrownGood(w, c, c2);
    CoveredGrown(c, c2, StrAt(w, s).seen);
    GoodIfGrown(w, c, c2);
  }

  lemma GoodIfGrown(w: World, c: Caches, c2: Caches)
    requires WellFormed(w.cfg) && Good(w, c)
    requires forall s :: s in c2.vis ==>
        (s in c.vis && c2.vis[s] == c.vis[s]) || (w.cfg.Known(s) && c2.vis[s] == Visibility(w, s))
    requires forall s :: s in c2.tri ==>
        (s in c.tri && c2.tri[s] == c.tri[s]) || (w.cfg.Known(s) && c2.tri[s] == TriVal(w, s))
    requires forall s :: s in c2.str ==>
        (s in c.str && c2.str[s] == c.str[s]) || (w.cfg.Known(s) && c2.str[s] == StrVal(w, s))
    requires forall s :: s in c2.vis && w.cfg.Known(s) ==> Covered(c2, VisAt(w, s).seen)
    requires forall s :: s in c2.tri && w.cfg.Known(s) ==> Covered(c2, TriAt(w, s).seen)
    requires forall s :: s in c2.str && w.cfg.Known(s) ==> Covered(c2, StrAt(w, s).seen)
    ensures Good(w, c2)
  {
    hide VisAt, TriAt, StrAt, Covered, WellFormed, Visibility, TriVal, StrVal;
    assert forall s :: s in c.vis ==> VisGood(w, c, s);
    assert forall s :: s in c.tri ==> TriGood(w, c, s);
    assert forall s :: s in c.str ==> StrGood(w, c, s);
  }

  /** All symbols of an expression are numbered below `s`. */
  predicate LowExpr(e: Expr, s: Sym) {
    match e
    case Item(z) => z < s
    case And(l, r) => LowExpr(l, s) && LowExpr(r, s)
    case Or(l, r) => LowExpr(l, s) && LowExpr(r, s)
    case Not(x) => LowExpr(x, s)
    case Relation(_, a, b) => a < s && b < s
  }

  lemma {:induction false} LowSyms(e: Expr, s: Sym)
    ensures LowExpr(e, s) <==> AllLow(Syms(e), s)
  {
    match e
    case And(l, r) =>
      LowSyms(l, s);
      LowSyms(r, s);
      AllLowUnion(Syms(l), Syms(r), s);
    case Or(l, r) =>
      LowSyms(l, s);
      LowSyms(r, s);
      AllLowUnion(Syms(l), Syms(r), s);
    case Not(x) => LowSyms(x, s);
    case Relation(_, a, b) => AllLowPair(a, b, s);
    case Item(z) => AllLowPair(z, z, s);
  }

  ghost predicate AllLow(zs: set<Sym>, s: Sym) { forall z: Sym :: z in zs ==> z < s }

  lemma AllLowUnion(a: set<Sym>, b: set<Sym>, s: Sym)
    ensures AllLow(a + b, s) <==> AllLow(a, s) && AllLow(b, s)
  {
    assert AllLow(a + b, s) ==> forall z: Sym :: z in a ==> z in a + b;
  }

  lemma AllLowPair(a: Sym, b: Sym, s: Sym)
    ensures AllLow({a, b}, s) <==> a < s && b < s
    ensures {a, a} == {a}
  {
    assert a in {a, b} && b in {a, b};
  }

  class Kconfig {
    const cfg: Config
    var user: map<Sym, UserValue>          // user_value
    var cache: Caches
    var dependents: map<Sym, set<Sym>>     // _dependents

    ghost function W(): World
      reads this
    {
      World(cfg, user)
    }

    ghost predicate Valid()
      reads this
    {
      WellFormed(cfg) && Recorded(cfg, dependents) && OnlyDefined(cfg, dependents) && Good(W(), cache)
    }

    /** Parsing done: dependencies are recorded and nothing is cached yet. */
    constructor (cfg: Config)
      requires WellFormed(cfg)
      ensures Valid() && this.cfg == cfg && user == map[] && cache == Caches(map[], map[], map[])
    {
      this.cfg := cfg;
      user := map[];
      cache := Caches(map[], map[], map[]);
      dependents := map[];
      new;
      BuildDep();
    }

    /** _build_dep: each defined symbol joins the dependents of every symbol it mentions, except
        constants. */
    method BuildDep()
      requires WellFormed(cfg)
      modifies `dependents
      ensures Recorded(cfg, dependents) && OnlyDefined(cfg, dependents)
    {
      hide OnlyDefined, RecordedFor, Extends, Def.Refs, WellFormed;
      dependents := map[];
      NothingRecorded(cfg);
      for x := 0 to |cfg.defs|
        invariant OnlyDefined(cfg, dependents)
        invariant forall y: Sym :: y < x && cfg.defs[y].defined ==> RecordedFor(cfg, dependents, y, cfg.defs[y].Refs())
      {
        if cfg.defs[x].defined {
          ghost var before := dependents;
          MakeDependOn(x, cfg.defs[x].Refs());
          forall y: Sym | y < x && cfg.defs[y].defined ensures RecordedFor(cfg, dependents, y, cfg.defs[y].Refs()) {
            ExtendsKeeps(cfg, before, dependents, x, y, cfg.defs[y].Refs());
          }
          ExtendsKeeps(cfg, before, dependents, x, x, {});
        }
      }
    }

    /** _make_depend_on for every symbol mentioned in the definition of `x`. */
    method MakeDependOn(x: Sym, refs: set<Sym>)
      requires cfg.Known(x)
      modifies `dependents
      ensures RecordedFor(cfg, dependents, x, refs) && Extends(old(dependents), dependents, x)
    {
      var left := refs;
      while left != {}
        invariant left <= refs
        invariant RecordedFor(cfg, dependents, x, refs - left) && Extends(old(dependents), dependents, x)
        decreases |left|
      {
        var z :| z in left;
        left := left - {z};
        if cfg.Known(z) && !cfg.defs[z].constant {
          dependents := dependents[z := {x} + (if z in dependents then dependents[z] else {})];
        }
      }
      assert refs - left == refs;
    }

    /** _invalidate_all. */
    method InvalidateAll() returns (ghost gone: set<Sym>)
      requires cfg.Known(cfg.modules)
      modifies `cache
      ensures gone == set x: Sym | x < |cfg.defs| && cfg.defs[x].defined
      ensures cache == Drop(old(cache), gone)
    {
      gone := {};
      for x := 0 to |cfg.defs|
        invariant gone == set y: Sym | y < x && cfg.defs[y].defined
        invariant cache == Drop(old(cache), gone)
      {
        if cfg.defs[x].defined {
          ghost var c := cache;
          cache := Drop(cache, {x});
          DropTwice(old(cache), gone, {x});
          gone := gone + {x};
        }
      }
    }

    /** _rec_invalidate. The recursion ends on any dependents graph, loops included: each call after
        the first starts at a symbol with a cached visibility and drops it. */
    method RecInvalidate(s: Sym) returns (ghost gone: set<Sym>)
      requires cfg.Known(cfg.modules) && cfg.Known(s) && cfg.defs[s].defined && OnlyDefined(cfg, dependents)
      modifies `cache
      ensures s in gone && Cut(cfg, dependents, old(cache), gone, cache)
      decreases |cache.vis.Keys|, if s in cache.vis then 0 else 1
    {
      hide Cut, CutBut, OnlyDefined;
      if s == cfg.modules {
        gone := InvalidateAll();
        CutAll(cfg, dependents, old(cache), gone);
        return;
      }
      cache := Drop(cache, {s});
      gone := {s};
      FewerKeys(old(cache).vis, s);
      CutStarts(cfg, dependents, old(cache), s);
      var todo := if s in dependents then dependents[s] else {};
      while todo != {}
        invariant s in dependents ==> todo <= dependents[s]
        invariant s !in dependents ==> todo == {}
        invariant s in gone && CutBut(cfg, dependents, old(cache), gone, cache, s, todo)
        invariant |cache.vis.Keys| <= |old(cache).vis.Keys - {s}|
        decreases |todo|
      {
        var item :| item in todo;
        if item in cache.vis {
          DefinedDependent(cfg, dependents, s, item);
          ghost var c := cache;
          ghost var more := RecInvalidate(item);
          CutMore(cfg, dependents, old(cache), gone, c, s, todo, item, more, cache);
          gone := gone + more;
        } else {
          CutSkip(cfg, dependents, old(cache), gone, cache, s, todo, item);
        }
        todo := todo - {item};
      }
      CutDone(cfg, dependents, old(cache), gone, cache, s);
    }

    /** A value of the right form for the symbol's type, as set_value stores it. */
    function Accepted(t: Type, value: UserValue): Option<UserValue> {
      match value
      case Logic(v) => if (t.Bool? && v != 1) || t.Tristate? || t.Fixed? then Some(value) else None
      case Text(x) =>
        if (t.Bool? || t.Tristate? || t.Fixed?) && x == "n" then Some(Logic(0))
        else if (t.Tristate? || t.Fixed?) && x == "m" then Some(Logic(1))
        else if (t.Bool? || t.Tristate? || t.Fixed?) && x == "y" then Some(Logic(2))
        else if t.Str? || (t.Int? && cfg.parse(10, x).Some?)
                || (t.Hex? && cfg.parse(16, x).Some? && cfg.parse(16, x).value >= 0) then Some(value)
        else None
    }

    /** Every stored user value has the form its symbol's type asks for. */
    ghost predicate UserValid()
      reads this
    {
      forall s :: s in user ==> cfg.Known(s) && Accepted(cfg.defs[s].typ, user[s]) == Some(user[s])
    }

    lemma TriLiterals(value: UserValue)
      ensures value.Logic? ==> value in {Logic(0), Logic(1), Logic(2)}
    {
      assert value.Logic? ==> value.tri == 0 || value.tri == 1 || value.tri == 2;
    }

    /** Symbol.set_value outside choices. */
    method SetValue(s: Sym, value: UserValue) returns (ok: bool)
      requires Valid() && UserValid() && cfg.Known(s)
      modifies `user, `cache
      ensures Valid() && UserValid()
      ensures ok <==> Accepted(cfg.defs[s].typ, value).Some?
      ensures user == if ok then old(user)[s := Accepted(cfg.defs[s].typ, value).value] else old(user)
      ensures var t := cfg.defs[s].typ;
        ok <==>
          || (t.Bool? && value in {Logic(0), Logic(2), Text("n"), Text("y")})
          || (t.Tristate? && value in {Logic(0), Logic(1), Logic(2), Text("n"), Text("m"), Text("y")})
          || (t.Fixed? && value in {Logic(0), Logic(1), Logic(2), Text("n"), Text("m"), Text("y")})
          || (t.Str? && value.Text?)
          || (t.Int? && value.Text? && cfg.parse(10, value.text).Some?)
          || (t.Hex? && value.Text? && cfg.parse(16, value.text).Some? && cfg.parse(16, value.text).value >= 0)
      ensures ok ==> s in user && user == old(user)[s := user[s]]
      ensures ok && !cfg.defs[s].Logical() ==> user[s] == value
      ensures ok && cfg.defs[s].Logical() ==> user[s] == Logic(
          if value in {Logic(0), Text("n")} then 0 else if value in {Logic(1), Text("m")} then 1 else 2)
    {
      TriLiterals(value);
      if s in user && value == user[s] {
        return true;
      }
      var stored := Accepted(cfg.defs[s].typ, value);
      if stored.None? {
        return false;
      }
      user := user[s := stored.value];
      RecInvalidateIfHasPrompt(s, old(user));
      return true;
    }

    /** Symbol.unset_value. */
    method UnsetValue(s: Sym)
      requires Valid() && UserValid() && cfg.Known(s)
      modifies `user, `cache
      ensures Valid() && UserValid()
      ensures user == old(user) - {s}
    {
      if s in user {
        user := user - {s};
        RecInvalidateIfHasPrompt(s, old(user));
      }
    }

    /** _rec_invalidate_if_has_prompt, just after the user value of `s` changed. */
    method RecInvalidateIfHasPrompt(s: Sym, ghost was: map<Sym, UserValue>)
      requires WellFormed(cfg) && Recorded(cfg, dependents) && OnlyDefined(cfg, dependents) && cfg.Known(s)
      requires Good(World(cfg, was), cache)
      requires forall z :: z != s ==> (z in user <==> z in was) && (z in user ==> user[z] == was[z])
      modifies `cache
      ensures Valid()
    {
      hide Good, Recorded, OnlyDefined, Cut;
      ghost var gone := {};
      if cfg.defs[s].prompts != [] {
        assert WellDefined(cfg, s);
        gone := RecInvalidate(s);
      } else {
        CutNothing(cfg, dependents, cache);
      }
      InvalidationSound(World(cfg, was), W(), dependents, old(cache), gone, cache);
    }

    /** expr_value, on behalf of symbol `s`, whose definition mentions only lower symbols. */
    method EvalExpr(e: Expr, s: Sym) returns (r: Tri)
      requires Valid() && s <= |cfg.defs| && KnownExpr(cfg, e) && LowExpr(e, s)
      modifies `cache
      ensures Valid() && Grown(old(cache), cache)
      ensures Evaluated(cache, ExprOut(cfg, e, Below(W(), s)), r)
      decreases s, 4, e
    {
      hide WellFormed, Recorded, OnlyDefined, Good, Covered, Grown, Below, RelationOut;
      ghost var env := Below(W(), s);
      match e
      case Item(z) =>
        r := TriValue(z);
        BelowTri(W(), s, z);
        CoverTri(cache, z);
      case And(a, b) =>
        r := EvalExpr(a, s);
        if r != 0 {
          ghost var c := cache;
          var v2 := EvalExpr(b, s);
          r := Min(r, v2);
          CoverBoth(old(cache), c, cache, ExprOut(cfg, a, env).seen, ExprOut(cfg, b, env).seen);
        }
      case Or(a, b) =>
        r := EvalExpr(a, s);
        if r != 2 {
          ghost var c := cache;
          var v2 := EvalExpr(b, s);
          r := Max(r, v2);
          CoverBoth(old(cache), c, cache, ExprOut(cfg, a, env).seen, ExprOut(cfg, b, env).seen);
        }
      case Not(x) =>
        r := EvalExpr(x, s);
        r := 2 - r;
      case Relation(rel, a, b) =>
        r := EvalRelation(rel, a, b, s);
    }

    /** The relation branch of expr_value. */
    method EvalRelation(rel: Rel, a: Sym, b: Sym, s: Sym) returns (r: Tri)
      requires Valid() && s <= |cfg.defs| && a < s && b < s
      modifies `cache
      ensures Valid() && Grown(old(cache), cache)
      ensures Evaluated(cache, RelationOut(cfg, rel, a, b, Below(W(), s)), r)
      decreases s, 3
    {
      hide WellFormed, Recorded, OnlyDefined, Good, Covered, Grown, Below, StrCmp, Compare, SymToNum;
      ghost var env := Below(W(), s);
      if cfg.defs[a].typ.Str? && cfg.defs[b].typ.Str? {
        r := EvalText(rel, a, b, s);
        return;
      }
      var x := EvalNum(a, s);
      ghost var c1 := cache;
      ghost var seen := SymToNum(cfg, a, env).seen;
      if x.Some? {
        var y := EvalNum(b, s);
        CoverBoth(old(cache), c1, cache, seen, SymToNum(cfg, b, env).seen);
        seen := seen + SymToNum(cfg, b, env).seen;
        if y.Some? {
          return if Compare(rel, x.value - y.value) then 2 else 0;
        }
      }
      ghost var c2 := cache;
      r := EvalText(rel, a, b, s);
      CoverBoth(old(cache), c2, cache, seen, {StrOf(a), StrOf(b)});
    }

    /** The lexicographic fallback of a relation. */
    method EvalText(rel: Rel, a: Sym, b: Sym, s: Sym) returns (r: Tri)
      requires Valid() && s <= |cfg.defs| && a < s && b < s
      modifies `cache
      ensures Valid() && Grown(old(cache), cache)
      ensures Covered(cache, {StrOf(a), StrOf(b)})
      ensures r == if Compare(rel, StrCmp(Below(W(), s).str(a), Below(W(), s).str(b))) then 2 else 0
      decreases s, 2
    {
      hide WellFormed, Recorded, OnlyDefined, Good, Covered, Grown, Below, StrCmp, Compare;
      var x, y := EvalBounds(a, b, s);
      r := if Compare(rel, StrCmp(x, y)) then 2 else 0;
    }

    /** _sym_to_num. */
    method EvalNum(a: Sym, s: Sym) returns (r: Option<int>)
      requires Valid() && s <= |cfg.defs| && a < s
      modifies `cache
      ensures Valid() && Grown(old(cache), cache)
      ensures Evaluated(cache, SymToNum(cfg, a, Below(W(), s)), r)
      decreases s, 1
    {
      hide WellFormed, Recorded, OnlyDefined, Good, Covered, Grown, Below;
      if cfg.defs[a].Logical() {
        var x := TriValue(a);
        BelowTri(W(), s, a);
        CoverTri(cache, a);
        return Some(x);
      }
      var x := StrValue(a);
      BelowStr(W(), s, a);
      CoverStr(cache, a);
      return cfg.parse(Base(cfg.defs[a].typ), x);
    }

    /** Symbol.type is TRISTATE. */
    method IsTristateNow(s: Sym) returns (r: bool)
      requires Valid() && cfg.Known(s)
      modifies `cache
      ensures Valid() && Grown(old(cache), cache)
      ensures Evaluated(cache, IsTristate(cfg, cfg.defs[s].typ, Below(W(), s)), r)
      decreases s, 1
    {
      hide Recorded, Good, Grown, Below, KnownDef;
      GrownSelf(cache);
      if cfg.defs[s].typ.Tristate? {
        assert WellDefined(cfg, s);
        var m := TriValue(cfg.modules);
        BelowTri(W(), s, cfg.modules);
        return m != 0;
      }
      return false;
    }

    /** _visibility. */
    method EvalVisibility(s: Sym) returns (vis: Tri)
      requires Valid() && cfg.Known(s)
      modifies `cache
      ensures Valid() && Grown(old(cache), cache)
      ensures Evaluated(cache, VisAt(W(), s), vis)
      decreases s, 6
    {
      hide WellFormed, Recorded, OnlyDefined, Good, Covered, Grown, Below, KnownExpr, VisAt, IsTristate, ExprOut;
      VisDef(W(), s);
      LowDef(cfg, s);
      vis := EvalPrompts(s);
      if vis == 1 {
        ghost var c := cache;
        var t := IsTristateNow(s);
        CoverBoth(old(cache), c, cache, PromptsOut(cfg, cfg.defs[s].prompts, 0, Below(W(), s)).seen,
                  IsTristate(cfg, cfg.defs[s].typ, Below(W(), s)).seen);
        if !t {
          vis := 2;
        }
      }
    }

    /** The loop of _visibility over the prompts. */
    method EvalPrompts(s: Sym) returns (vis: Tri)
      requires Valid() && cfg.Known(s) && KnownExprs(cfg, cfg.defs[s].prompts)
      requires forall i :: 0 <= i < |cfg.defs[s].prompts| ==> LowExpr(cfg.defs[s].prompts[i], s)
      modifies `cache
      ensures Valid() && Grown(old(cache), cache)
      ensures Evaluated(cache, PromptsOut(cfg, cfg.defs[s].prompts, 0, Below(W(), s)), vis)
      decreases s, 5
    {
      hide WellFormed, Recorded, OnlyDefined, Good, Covered, Grown, Below, ExprOut;
      var ps := cfg.defs[s].prompts;
      ghost var env := Below(W(), s);
      ghost var all := PromptsOut(cfg, ps, 0, env);
      ghost var seen := {};
      vis := 0;
      GrownSelf(cache);
      CoveredNone(cache);
      for i := 0 to |ps|
        invariant Valid() && Grown(old(cache), cache) && Covered(cache, seen) && env == Below(W(), s)
        invariant all.v == PromptsOut(cfg, ps[i..], vis, env).v
        invariant all.seen == seen + PromptsOut(cfg, ps[i..], vis, env).seen
      {
        assert ps[i..][0] == ps[i] && ps[i..][1..] == ps[i + 1..];
        ghost var c := cache;
        var v := EvalExpr(ps[i], s);
        CoverBoth(old(cache), c, cache, seen, ExprOut(cfg, ps[i], env).seen);
        seen := seen + ExprOut(cfg, ps[i], env).seen;
        vis := Max(vis, v);
      }
    }

    /** Symbol.visibility. */
    method VisValue(s: Sym) returns (r: Tri)
      requires Valid() && cfg.Known(s)
      modifies `cache
      ensures Valid() && Grown(old(cache), cache)
      ensures r == Visibility(W(), s) && s in cache.vis
      decreases s, 7
    {
      hide WellFormed, Recorded, OnlyDefined, Covered, Grown, VisAt;
      if s in cache.vis {
        GrownSelf(cache);
        assert VisGood(W(), cache, s);
        return cache.vis[s];
      }
      r := EvalVisibility(s);
      ghost var c := cache;
      AddVis(W(), cache, s);
      cache := cache.(vis := cache.vis[s := r]);
      GrownTwice(old(cache), c, cache);
    }

    /** The default part of Symbol.tri_value. */
    method EvalDefaults(s: Sym) returns (val: Tri)
      requires Valid() && cfg.Known(s)
      modifies `cache
      ensures Valid() && Grown(old(cache), cache)
      ensures KnownDefaults(cfg, cfg.defs[s].defaults)
      ensures Evaluated(cache, DefaultsOut(cfg, cfg.defs[s].defaults, Below(W(), s)), val)
      decreases s, 5
    {
      hide WellFormed, Recorded, OnlyDefined, Good, Covered, Grown, Below, ExprOut, KnownExpr, LowExpr;
      LowDef(cfg, s);
      var ds := cfg.defs[s].defaults;
      ghost var env := Below(W(), s);
      ghost var all := DefaultsOut(cfg, ds, env);
      ghost var seen := {};
      GrownSelf(cache);
      CoveredNone(cache);
      for i := 0 to |ds|
        invariant Valid() && Grown(old(cache), cache) && Covered(cache, seen) && env == Below(W(), s)
        invariant all.v == DefaultsOut(cfg, ds[i..], env).v
        invariant all.seen == seen + DefaultsOut(cfg, ds[i..], env).seen
      {
        assert ds[i..][0] == ds[i] && ds[i..][1..] == ds[i + 1..];
        ghost var c := cache;
        var cond := EvalExpr(ds[i].cond, s);
        CoverBoth(old(cache), c, cache, seen, ExprOut(cfg, ds[i].cond, env).seen);
        seen := seen + ExprOut(cfg, ds[i].cond, env).seen;
        if cond != 0 {
          c := cache;
          var v := EvalExpr(ds[i].value, s);
          CoverBoth(old(cache), c, cache, seen, ExprOut(cfg, ds[i].value, env).seen);
          seen := seen + ExprOut(cfg, ds[i].value, env).seen;
          assert all.seen == seen;
          return Min(v, cond);
        }
      }
      return 0;
    }

    /** The imply part of Symbol.tri_value. */
    method EvalImplied(s: Sym, val: Tri) returns (r: Tri)
      requires Valid() && cfg.Known(s) && KnownDef(cfg, cfg.defs[s])
      modifies `cache
      ensures Valid() && Grown(old(cache), cache)
      ensures Evaluated(cache, ImpliedOut(cfg, cfg.defs[s], val, Below(W(), s)), r)
      decreases s, 5
    {
      hide WellFormed, Recorded, OnlyDefined, Good, Covered, Grown, Below, ExprOut, KnownExpr, LowExpr, KnownExprs,
           KnownDefaults, KnownRanges;
      LowDef(cfg, s);
      var d := cfg.defs[s];
      ghost var env := Below(W(), s);
      r := val;
      var weak := EvalExpr(d.weakRevDep, s);
      if weak != 0 {
        ghost var c := cache;
        var direct := EvalExpr(d.directDep, s);
        CoverBoth(old(cache), c, cache, ExprOut(cfg, d.weakRevDep, env).seen, ExprOut(cfg, d.directDep, env).seen);
        if direct != 0 {
          r := Max(weak, val);
        }
      }
    }

    /** The select part of Symbol.tri_value. */
    method EvalSelected(s: Sym, val: Tri) returns (r: Tri)
      requires Valid() && cfg.Known(s) && KnownDef(cfg, cfg.defs[s])
      modifies `cache
      ensures Valid() && Grown(old(cache), cache)
      ensures Evaluated(cache, SelectedOut(cfg, cfg.defs[s], val, Below(W(), s)), r)
      decreases s, 5
    {
      hide WellFormed, Recorded, OnlyDefined, Good, Covered, Grown, Below, ExprOut, IsTristate, KnownExpr, LowExpr,
           KnownExprs, KnownDefaults, KnownRanges;
      LowDef(cfg, s);
      var d := cfg.defs[s];
      ghost var env := Below(W(), s);
      r := val;
      var rev := EvalExpr(d.revDep, s);
      ghost var seen := ExprOut(cfg, d.revDep, env).seen;
      if rev != 0 {
        ghost var c := cache;
        var direct := EvalExpr(d.directDep, s);  // only compared, for a warning
        CoverBoth(old(cache), c, cache, seen, ExprOut(cfg, d.directDep, env).seen);
        seen := seen + ExprOut(cfg, d.directDep, env).seen;
        r := Max(rev, val);
      }
      assert rev == 0 ==> seen + {} == seen;
      if r == 1 {
        ghost var c := cache;
        var t := IsTristateNow(s);
        CoverBoth(old(cache), c, cache, seen, IsTristate(cfg, d.typ, env).seen);
        seen := seen + IsTristate(cfg, d.typ, env).seen;
        if !t {
          r := 2;
        } else {
          c := cache;
          var weak := EvalExpr(d.weakRevDep, s);
          CoverBoth(old(cache), c, cache, seen, ExprOut(cfg, d.weakRevDep, env).seen);
          if weak == 2 {
            r := 2;
          }
        }
      }
    }

    /** The range in effect for an int or hex symbol. */
    method EvalRange(s: Sym) returns (r: Option<(int, int)>)
      requires Valid() && cfg.Known(s)
      modifies `cache
      ensures Valid() && Grown(old(cache), cache)
      ensures KnownRanges(cfg, cfg.defs[s].ranges)
      ensures Evaluated(cache, RangeOut(cfg, cfg.defs[s].ranges, Base(cfg.defs[s].typ), Below(W(), s)), r)
      decreases s, 5
    {
      hide WellFormed, Recorded, OnlyDefined, Good, Covered, Grown, Below, ExprOut, KnownExpr, LowExpr, NumOrZero, Base;
      LowDef(cfg, s);
      var rs := cfg.defs[s].ranges;
      var base := Base(cfg.defs[s].typ);
      ghost var env := Below(W(), s);
      ghost var all := RangeOut(cfg, rs, base, env);
      ghost var seen := {};
      GrownSelf(cache);
      CoveredNone(cache);
      for i := 0 to |rs|
        invariant Valid() && Grown(old(cache), cache) && Covered(cache, seen) && env == Below(W(), s)
        invariant all.v == RangeOut(cfg, rs[i..], base, env).v
        invariant all.seen == seen + RangeOut(cfg, rs[i..], base, env).seen
      {
        assert rs[i..][0] == rs[i] && rs[i..][1..] == rs[i + 1..];
        ghost var c := cache;
        var cond := EvalExpr(rs[i].cond, s);
        CoverBoth(old(cache), c, cache, seen, ExprOut(cfg, rs[i].cond, env).seen);
        seen := seen + ExprOut(cfg, rs[i].cond, env).seen;
        if cond != 0 {
          c := cache;
          var low, high := EvalBounds(rs[i].low, rs[i].high, s);
          CoverBoth(old(cache), c, cache, seen, {StrOf(rs[i].low), StrOf(rs[i].high)});
          seen := seen + {StrOf(rs[i].low), StrOf(rs[i].high)};
          assert all.seen == seen;
          return Some((NumOrZero(cfg, base, low), NumOrZero(cfg, base, high)));
        }
      }
      return None;
    }

    method EvalBounds(a: Sym, b: Sym, s: Sym) returns (x: string, y: string)
      requires Valid() && s <= |cfg.defs| && a < s && b < s
      modifies `cache
      ensures Valid() && Grown(old(cache), cache) && Covered(cache, {StrOf(a), StrOf(b)})
      ensures x == Below(W(), s).str(a) && y == Below(W(), s).str(b)
      decreases s, 1
    {
      hide WellFormed, Recorded, OnlyDefined, Good, Covered, Grown, Below;
      x := StrValue(a);
      ghost var c1 := cache;
      CoverStr(c1, a);
      y := StrValue(b);
      CoverStr(cache, b);
      CoverBoth(old(cache), c1, cache, {StrOf(a)}, {StrOf(b)});
      assert {StrOf(a)} + {StrOf(b)} == {StrOf(a), StrOf(b)};
      BelowStr(W(), s, a);
      BelowStr(W(), s, b);
    }

    /** The first applicable default of a string, int or hex symbol. */
    method EvalTextDefault(s: Sym) returns (r: Option<string>)
      requires Valid() && cfg.Known(s)
      modifies `cache
      ensures Valid() && Grown(old(cache), cache)
      ensures KnownDefaults(cfg, cfg.defs[s].defaults)
      ensures Evaluated(cache, TextDefaultOut(cfg, cfg.defs[s].defaults, Below(W(), s)), r)
      decreases s, 5
    {
      hide WellFormed, Recorded, OnlyDefined, Good, Covered, Grown, Below, ExprOut, KnownExpr;
      LowDef(cfg, s);
      var ds := cfg.defs[s].defaults;
      ghost var env := Below(W(), s);
      ghost var all := TextDefaultOut(cfg, ds, env);
      ghost var seen := {};
      GrownSelf(cache);
      CoveredNone(cache);
      for i := 0 to |ds|
        invariant Valid() && Grown(old(cache), cache) && Covered(cache, seen) && env == Below(W(), s)
        invariant all.v == TextDefaultOut(cfg, ds[i..], env).v
        invariant all.seen == seen + TextDefaultOut(cfg, ds[i..], env).seen
      {
        assert ds[i..][0] == ds[i] && ds[i..][1..] == ds[i + 1..];
        ghost var c := cache;
        var cond := EvalExpr(ds[i].cond, s);
        CoverBoth(old(cache), c, cache, seen, ExprOut(cfg, ds[i].cond, env).seen);
        seen := seen + ExprOut(cfg, ds[i].cond, env).seen;
        if cond != 0 {
          if !ds[i].value.Item? {
            return None;
          }
          var z := ds[i].value.sym;
          c := cache;
          var v := StrValue(z);
          CoverStr(cache, z);
          BelowStr(W(), s, z);
          CoverBoth(old(cache), c, cache, seen, {StrOf(z)});
          seen := seen + {StrOf(z)};
          assert all.seen == seen;
          return Some(v);
        }
      }
      return None;
    }

    /** The int and hex branch of Symbol.str_value. */
    method EvalNumber(s: Sym, vis: Tri) returns (r: string)
      requires Valid() && cfg.Known(s) && KnownDef(cfg, cfg.defs[s])
      modifies `cache
      ensures Valid() && Grown(old(cache), cache)
      ensures Evaluated(cache, NumberOut(cfg, cfg.defs[s], User(W(), s), vis, Below(W(), s)), r)
      decreases s, 6
    {
      hide WellFormed, Recorded, OnlyDefined, Good, Covered, Grown, Below, KnownExprs, KnownDefaults, KnownRanges,
           KnownExpr,
           RangeOut, TextDefaultOut, NumOrZero, Clamp, Base;
      var d := cfg.defs[s];
      ghost var env := Below(W(), s);
      var range := EvalRange(s);
      if vis != 0 && s in user && user[s].Text? && user[s].text != ""
         && InRange(NumOrZero(cfg, Base(d.typ), user[s].text), range)
      {
        return user[s].text;
      }
      ghost var c := cache;
      var text := EvalTextDefault(s);
      CoverBoth(old(cache), c, cache, RangeOut(cfg, d.ranges, Base(d.typ), env).seen,
          TextDefaultOut(cfg, d.defaults, env).seen);
      return Clamp(cfg, Base(d.typ), text, range);
    }

    /** The computation of Symbol.str_value when nothing is cached. */
    method EvalStr(s: Sym) returns (r: string)
      requires Valid() && cfg.Known(s)
      modifies `cache
      ensures Valid() && Grown(old(cache), cache)
      ensures Evaluated(cache, StrAt(W(), s), r)
      decreases s, 10
    {
      hide WellFormed, Recorded, OnlyDefined, Good, Covered, Grown, Below, KnownExprs, KnownDefaults, KnownRanges,
           KnownExpr,
           VisAt, TriAt, StrAt, NumberOut, TextDefaultOut, Visibility, TriVal, TriName;
      VisDef(W(), s);
      CoveredNone(cache);
      GrownSelf(cache);
      var d := cfg.defs[s];
      ghost var env := Below(W(), s);
      if d.Logical() {
        var t := TriValue(s);
        CoverTri(cache, s);
        return TriName(t);
      }
      if d.typ.Unknown? {
        return d.name;
      }
      var vis := VisValue(s);
      ghost var c := cache;
      CoverVis(cache, s);
      if d.Numeric() {
        r := EvalNumber(s, vis);
        CoverBoth(old(cache), c, cache, {VisOf(s)}, NumberOut(cfg, d, User(W(), s), vis, env).seen);
      } else if vis != 0 && s in user && user[s].Text? {
        r := user[s].text;
        assert {VisOf(s)} + {} == {VisOf(s)};
      } else {
        var text := EvalTextDefault(s);
        CoverBoth(old(cache), c, cache, {VisOf(s)}, TextDefaultOut(cfg, d.defaults, env).seen);
        r := if text.Some? then text.value else "";
      }
    }

    /** Symbol.str_value. */
    method StrValue(s: Sym) returns (r: string)
      requires Valid() && cfg.Known(s)
      modifies `cache
      ensures Valid() && Grown(old(cache), cache)
      ensures r == StrVal(W(), s) && s in cache.str
      decreases s, 11
    {
      hide WellFormed, Recorded, OnlyDefined, Covered, Grown, StrAt;
      if s in cache.str {
        GrownSelf(cache);
        assert StrGood(W(), cache, s);
        return cache.str[s];
      }
      r := EvalStr(s);
      ghost var c := cache;
      AddStr(W(), cache, s);
      cache := cache.(str := cache.str[s := r]);
      GrownTwice(old(cache), c, cache);
    }

    /** Symbol.tri_value. */
    method TriValue(s: Sym) returns (r: Tri)
      requires Valid() && cfg.Known(s)
      modifies `cache
      ensures Valid() && Grown(old(cache), cache)
      ensures r == TriVal(W(), s) && s in cache.tri
      decreases s, 9
    {
      hide WellFormed, Recorded, OnlyDefined, Covered, Grown, TriAt;
      if s in cache.tri {
        GrownSelf(cache);
        assert TriGood(W(), cache, s);
        return cache.tri[s];
      }
      r := EvalTri(s);
      ghost var c := cache;
      AddTri(W(), cache, s);
      cache := cache.(tri := cache.tri[s := r]);
      GrownTwice(old(cache), c, cache);
    }

    /** The computation of Symbol.tri_value when nothing is cached. */
    method EvalTri(s: Sym) returns (r: Tri)
      requires Valid() && cfg.Known(s)
      modifies `cache
      ensures Valid() && Grown(old(cache), cache)
      ensures Evaluated(cache, TriAt(W(), s), r)
      decreases s, 8
    {
      hide WellFormed, Recorded, OnlyDefined, Good, Covered, Grown, Below, KnownExprs, KnownDefaults, KnownRanges,
           KnownExpr,
           VisAt, TriAt, DefaultsOut, ImpliedOut, SelectedOut, Visibility;
      VisDef(W(), s);
      CoveredNone(cache);
      GrownSelf(cache);
      var d := cfg.defs[s];
      ghost var env := Below(W(), s);
      if d.typ.Fixed? {
        return d.typ.tri;
      }
      if !d.Logical() {
        return 0;
      }
      var vis := VisValue(s);
      ghost var c := cache;
      ghost var seen := {VisOf(s)};
      CoverVis(cache, s);
      var val: Tri;
      if vis != 0 && s in user && user[s].Logic? {
        val := Min(user[s].tri, vis);
      } else {
        val := EvalDefaults(s);
        ghost var c1 := cache;
        CoverBoth(old(cache), c, cache, seen, DefaultsOut(cfg, d.defaults, env).seen);
        val := EvalImplied(s, val);
        ghost var x := DefaultsOut(cfg, d.defaults, env);
        CoverBoth(old(cache), c1, cache, seen + x.seen, ImpliedOut(cfg, d, x.v, env).seen);
        seen := seen + x.seen + ImpliedOut(cfg, d, x.v, env).seen;
      }
      ghost var c2 := cache;
      ghost var chosen := val;
      r := EvalSelected(s, val);
      CoverBoth(old(cache), c2, cache, seen, SelectedOut(cfg, d, chosen, env).seen);
      assert TriAt(W(), s).seen == seen + SelectedOut(cfg, d, chosen, env).seen;
    }
  }

  lemma CoverVis(c: Caches, z: Sym)
    requires z in c.vis
    ensures Covered(c, {VisOf(z)})
  {
  }

  lemma FewerKeys(m: map<Sym, Tri>, s: Sym)
    ensures |(m - {s}).Keys| == |m.Keys - {s}|
    ensures s in m ==> |m.Keys - {s}| < |m.Keys|
    ensures s !in m ==> |m.Keys - {s}| == |m.Keys|
  {
    assert (m - {s}).Keys == m.Keys - {s};
    if s !in m {
      assert m.Keys - {s} == m.Keys;
    }
  }

  /** A cut still under way at `s`: the dependents in `todo` are not dealt with yet. */
  ghost predicate CutBut(cfg: Config, deps: map<Sym, set<Sym>>, c: Caches, gone: set<Sym>, c2: Caches, s: Sym,
                         todo: set<Sym>) {
    && c2 == Drop(c, gone)
    && (forall z: Sym :: z in gone ==> cfg.Known(z) && cfg.defs[z].defined)
    && (forall z, x :: z in gone && z in deps && x in deps[z] && !(z == s && x in todo) ==> x !in c2.vis)
    && (cfg.modules in gone ==> forall x: Sym :: cfg.Known(x) && cfg.defs[x].defined ==> x in gone)
  }

  lemma CutAll(cfg: Config, deps: map<Sym, set<Sym>>, c: Caches, gone: set<Sym>)
    requires OnlyDefined(cfg, deps) && gone == set x: Sym | x < |cfg.defs| && cfg.defs[x].defined
    ensures Cut(cfg, deps, c, gone, Drop(c, gone))
  {
    forall z, x | z in gone && z in deps && x in deps[z] ensures x !in Drop(c, gone).vis {
      assert cfg.Known(x) && cfg.defs[x].defined;
      assert x in gone;
    }
  }

  lemma CutStarts(cfg: Config, deps: map<Sym, set<Sym>>, c: Caches, s: Sym)
    requires cfg.Known(s) && cfg.defs[s].defined && s != cfg.modules
    ensures CutBut(cfg, deps, c, {s}, Drop(c, {s}), s, if s in deps then deps[s] else {})
    ensures Drop(c, {s}).vis == c.vis - {s}
  {
  }

  lemma CutDone(cfg: Config, deps: map<Sym, set<Sym>>, c: Caches, gone: set<Sym>, c2: Caches, s: Sym)
    requires CutBut(cfg, deps, c, gone, c2, s, {})
    ensures Cut(cfg, deps, c, gone, c2)
  {
  }

  lemma DefinedDependent(cfg: Config, deps: map<Sym, set<Sym>>, s: Sym, x: Sym)
    requires OnlyDefined(cfg, deps) && s in deps && x in deps[s]
    ensures cfg.Known(x) && cfg.defs[x].defined
  {
  }

  lemma NothingRecorded(cfg: Config)
    ensures OnlyDefined(cfg, map[])
  {
  }

  lemma CutNothing(cfg: Config, deps: map<Sym, set<Sym>>, c: Caches)
    ensures Cut(cfg, deps, c, {}, c)
  {
  }

  lemma CutMore(cfg: Config, deps: map<Sym, set<Sym>>, c0: Caches, gone: set<Sym>, c1: Caches, s: Sym, todo: set<Sym>,
                item: Sym, more: set<Sym>, c2: Caches)
    requires CutBut(cfg, deps, c0, gone, c1, s, todo)
    requires Cut(cfg, deps, c1, more, c2) && item in more
    ensures CutBut(cfg, deps, c0, gone + more, c2, s, todo - {item}) && item !in c2.vis
    ensures c2.vis.Keys <= c1.vis.Keys && |c2.vis.Keys| <= |c1.vis.Keys|
  {
    DropTwice(c0, gone, more);
    SubsetSize(c2.vis.Keys, c1.vis.Keys);
  }

  lemma CutSkip(cfg: Config, deps: map<Sym, set<Sym>>, c0: Caches, gone: set<Sym>, c1: Caches, s: Sym, todo: set<Sym>,
                item: Sym)
    requires CutBut(cfg, deps, c0, gone, c1, s, todo) && item !in c1.vis
    ensures CutBut(cfg, deps, c0, gone, c1, s, todo - {item})
  {
  }

  lemma DropTwice(c: Caches, a: set<Sym>, b: set<Sym>)
    ensures Drop(Drop(c, a), b) == Drop(c, a + b)
  {
  }

  lemma GrownSelf(c: Caches)
    ensures Grown(c, c)
  {
  }

  lemma GrownTwice(c0: Caches, c1: Caches, c2: Caches)
    requires Grown(c0, c1) && Grown(c1, c2)
    ensures Grown(c0, c2)
  {
  }

  lemma CoveredNone(c: Caches)
    ensures Covered(c, {})
  {
  }

  /** The expressions of a definition mention only lower symbols. */
  lemma LowDef(cfg: Config, s: Sym)
    requires WellFormed(cfg) && cfg.Known(s)
    ensures KnownDef(cfg, cfg.defs[s])
    ensures forall i :: 0 <= i < |cfg.defs[s].prompts| ==> LowExpr(cfg.defs[s].prompts[i], s)
    ensures forall i :: 0 <= i < |cfg.defs[s].defaults| ==>
              LowExpr(cfg.defs[s].defaults[i].cond, s) && LowExpr(cfg.defs[s].defaults[i].value, s)
    ensures LowExpr(cfg.defs[s].revDep, s) && LowExpr(cfg.defs[s].weakRevDep, s) && LowExpr(cfg.defs[s].directDep, s)
    ensures forall i :: 0 <= i < |cfg.defs[s].ranges| ==>
              cfg.defs[s].ranges[i].low < s && cfg.defs[s].ranges[i].high < s && LowExpr(cfg.defs[s].ranges[i].cond, s)
  {
    hide KnownDef, LowExpr, Def.Refs;
    assert WellDefined(cfg, s);
    var d := cfg.defs[s];
    RefsCover(d);
    LowSyms(d.revDep, s);
    LowSyms(d.weakRevDep, s);
    LowSyms(d.directDep, s);
    forall i | 0 <= i < |d.prompts| ensures LowExpr(d.prompts[i], s) {
      LowSyms(d.prompts[i], s);
    }
    forall i | 0 <= i < |d.defaults| ensures LowExpr(d.defaults[i].cond, s) && LowExpr(d.defaults[i].value, s) {
      LowSyms(d.defaults[i].cond, s);
      LowSyms(d.defaults[i].value, s);
    }
    forall i | 0 <= i < |d.ranges| ensures d.ranges[i].low < s && d.ranges[i].high < s && LowExpr(d.ranges[i].cond, s) {
      LowSyms(d.ranges[i].cond, s);
      assert d.ranges[i].low in d.Refs() && d.ranges[i].high in d.Refs();
    }
  }

  lemma RefsCover(d: Def)
    ensures Syms(d.revDep) <= d.Refs() && Syms(d.weakRevDep) <= d.Refs() && Syms(d.directDep) <= d.Refs()
    ensures forall i :: 0 <= i < |d.prompts| ==> Syms(d.prompts[i]) <= d.Refs()
    ensures forall i :: 0 <= i < |d.defaults| ==>
        Syms(d.defaults[i].cond) <= d.Refs() && Syms(d.defaults[i].value) <= d.Refs()
    ensures forall i :: 0 <= i < |d.ranges| ==>
              Syms(d.ranges[i].cond) <= d.Refs() && d.ranges[i].low in d.Refs() && d.ranges[i].high in d.Refs()
  {
    hide Syms;
    forall i | 0 <= i < |d.prompts| ensures Syms(d.prompts[i]) <= d.Refs() {
      assert Syms(d.prompts[i]) <= PromptSyms(d.prompts);
    }
    forall i | 0 <= i < |d.defaults|
      ensures Syms(d.defaults[i].cond) <= d.Refs() && Syms(d.defaults[i].value) <= d.Refs()
    {
      assert Syms(d.defaults[i].value) + Syms(d.defaults[i].cond) <= DefaultSyms(d.defaults);
    }
    forall i | 0 <= i < |d.ranges|
      ensures Syms(d.ranges[i].cond) <= d.Refs() && d.ranges[i].low in d.Refs() && d.ranges[i].high in d.Refs()
    {
      assert {d.ranges[i].low, d.ranges[i].high} + Syms(d.ranges[i].cond) <= RangeSyms(d.ranges);
    }
  }

  lemma BelowTri(w: World, s: Sym, z: Sym)
    requires WellFormed(w.cfg) && z < s <= |w.cfg.defs|
    ensures Below(w, s).tri(z) == TriVal(w, z)
  {
    hide TriVal, StrVal;
  }

  lemma BelowStr(w: World, s: Sym, z: Sym)
    requires WellFormed(w.cfg) && z < s <= |w.cfg.defs|
    ensures Below(w, s).str(z) == StrVal(w, z)
  {
    hide TriVal, StrVal;
  }

  lemma CoverTri(c: Caches, z: Sym)
    requires z in c.tri
    ensures Covered(c, {TriOf(z)})
  {
  }

  lemma CoverStr(c: Caches, z: Sym)
    requires z in c.str
    ensures Covered(c, {StrOf(z)})
  {
  }

  lemma CoverBoth(c0: Caches, c1: Caches, c2: Caches, seen1: set<Cell>, seen2: set<Cell>)
    requires Covered(c1, seen1) && Grown(c0, c1) && Grown(c1, c2) && Covered(c2, seen2)
    ensures Covered(c2, seen1 + seen2) && Grown(c0, c2)
  {
    CoveredGrown(c1, c2, seen1);
  }
}
