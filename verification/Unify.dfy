/** First-order terms, substitutions as association lists, matching, and the
    naive unification algorithm. */
module Unify {
  import opened Wrappers

  datatype Term = Var(n: int) | Term(oper: string, sons: Terms)

  datatype Terms = Nil | Cons(head: Term, tail: Terms)

  /** A binding list: the first binding of a variable counts. */
  datatype Subst = Empty | Bind(v: int, t: Term, rest: Subst)

  predicate MemAssoc(v: int, s: Subst) {
    s.Bind? && (v == s.v || MemAssoc(v, s.rest))
  }

  /** What a substitution makes of a variable: its binding, or itself. */
  function Lookup(v: int, s: Subst): Term {
    match s
    case Empty => Var(v)
    case Bind(w, t, rest) => if v == w then t else Lookup(v, rest)
  }

  function Substitute(s: Subst, t: Term): Term {
    match t
    case Var(v) => Lookup(v, s)
    case Term(oper, sons) => Term(oper, SubstituteAll(s, sons))
  }

  function SubstituteAll(s: Subst, ts: Terms): Terms {
    match ts
    case Nil => Nil
    case Cons(t, rest) => Cons(Substitute(s, t), SubstituteAll(s, rest))
  }

  function Append(s1: Subst, s2: Subst): Subst {
    match s1
    case Empty => s2
    case Bind(v, t, rest) => Bind(v, t, Append(rest, s2))
  }

  function MapSubst(s1: Subst, s2: Subst): Subst {
    match s2
    case Empty => Empty
    case Bind(v, t, rest) => Bind(v, Substitute(s1, t), MapSubst(s1, rest))
  }

  function CompSubst(s1: Subst, s2: Subst): Subst {
    Append(MapSubst(s1, s2), s1)
  }

  predicate Occurs(n: int, t: Term) {
    match t
    case Var(m) => m == n
    case Term(_, sons) => OccursIn(n, sons)
  }

  predicate OccursIn(n: int, ts: Terms) {
    ts.Cons? && (Occurs(n, ts.head) || OccursIn(n, ts.tail))
  }

  /** The variables of a term, and those a substitution binds or mentions. */
  function Vars(t: Term): set<int> {
    match t
    case Var(v) => {v}
    case Term(_, sons) => VarsOf(sons)
  }

  function VarsOf(ts: Terms): set<int> {
    match ts
    case Nil => {}
    case Cons(t, rest) => Vars(t) + VarsOf(rest)
  }

  function Domain(s: Subst): set<int> {
    match s
    case Empty => {}
    case Bind(v, _, rest) => {v} + Domain(rest)
  }

  function RangeVars(s: Subst): set<int> {
    match s
    case Empty => {}
    case Bind(_, t, rest) => Vars(t) + RangeVars(rest)
  }

  function Size(t: Term): nat {
    match t
    case Var(_) => 1
    case Term(_, sons) => 1 + SizeOf(sons)
  }

  function SizeOf(ts: Terms): nat {
    match ts
    case Nil => 0
    case Cons(t, rest) => 1 + Size(t) + SizeOf(rest)
  }

  /** A substitution over the variables `vs` that binds only some of them, to
      terms over the others. */
  predicate Solved(s: Subst, vs: set<int>) {
    Domain(s) <= vs && RangeVars(s) <= vs - Domain(s)
  }

  lemma {:induction false} LookupVars(s: Subst, v: int)
    ensures v in Domain(s) ==> Vars(Lookup(v, s)) <= RangeVars(s)
    ensures v !in Domain(s) ==> Lookup(v, s) == Var(v)
  {
    if s.Bind? {
      LookupVars(s.rest, v);
    }
  }

  lemma {:induction false} SubstituteVars(s: Subst, t: Term, vs: set<int>)
    requires Vars(t) <= vs && Solved(s, vs)
    ensures Vars(Substitute(s, t)) <= vs - Domain(s)
  {
    match t
    case Var(v) => LookupVars(s, v);
    case Term(_, sons) => SubstituteAllVars(s, sons, vs);
  }

  lemma {:induction false} SubstituteAllVars(s: Subst, ts: Terms, vs: set<int>)
    requires VarsOf(ts) <= vs && Solved(s, vs)
    ensures VarsOf(SubstituteAll(s, ts)) <= vs - Domain(s)
  {
    match ts
    case Nil =>
    case Cons(t, rest) =>
      SubstituteVars(s, t, vs);
      SubstituteAllVars(s, rest, vs);
  }

  lemma {:induction false} SubstituteEmpty(t: Term)
    ensures Substitute(Empty, t) == t
  {
    match t
    case Var(_) =>
    case Term(_, sons) => SubstituteAllEmpty(sons);
  }

  lemma {:induction false} SubstituteAllEmpty(ts: Terms)
    ensures SubstituteAll(Empty, ts) == ts
  {
    match ts
    case Nil =>
    case Cons(t, rest) =>
      SubstituteEmpty(t);
      SubstituteAllEmpty(rest);
  }

  /** The occurs check finds just the variables of a term. */
  lemma {:induction false} OccursIsVar(n: int, t: Term)
    ensures Occurs(n, t) <==> n in Vars(t)
  {
    match t
    case Var(_) =>
    case Term(_, sons) => OccursInIsVar(n, sons);
  }

  lemma {:induction false} OccursInIsVar(n: int, ts: Terms)
    ensures OccursIn(n, ts) <==> n in VarsOf(ts)
  {
    match ts
    case Nil =>
    case Cons(t, rest) =>
      OccursIsVar(n, t);
      OccursInIsVar(n, rest);
  }

  lemma {:induction false} LookupAppend(s1: Subst, s2: Subst, v: int)
    ensures Lookup(v, Append(s1, s2)) == if v in Domain(s1) then Lookup(v, s1) else Lookup(v, s2)
  {
    if s1.Bind? {
      LookupAppend(s1.rest, s2, v);
    }
  }

  lemma {:induction false} LookupMap(s1: Subst, s2: Subst, v: int)
    ensures Domain(MapSubst(s1, s2)) == Domain(s2)
    ensures v in Domain(s2) ==> Lookup(v, MapSubst(s1, s2)) == Substitute(s1, Lookup(v, s2))
  {
    if s2.Bind? {
      LookupMap(s1, s2.rest, v);
    }
  }

  /** Composition: the second substitution first, then the first. */
  lemma {:induction false} CompSubstIsComposition(s1: Subst, s2: Subst, t: Term)
    ensures Substitute(CompSubst(s1, s2), t) == Substitute(s1, Substitute(s2, t))
  {
    match t
    case Var(v) =>
      LookupAppend(MapSubst(s1, s2), s1, v);
      LookupMap(s1, s2, v);
      LookupVars(s2, v);
    case Term(_, sons) => CompSubstIsCompositionAll(s1, s2, sons);
  }

  lemma {:induction false} CompSubstIsCompositionAll(s1: Subst, s2: Subst, ts: Terms)
    ensures SubstituteAll(CompSubst(s1, s2), ts) == SubstituteAll(s1, SubstituteAll(s2, ts))
  {
    match ts
    case Nil =>
    case Cons(t, rest) =>
      CompSubstIsComposition(s1, s2, t);
      CompSubstIsCompositionAll(s1, s2, rest);
  }

  lemma {:induction false} AppendVars(s1: Subst, s2: Subst)
    ensures Domain(Append(s1, s2)) == Domain(s1) + Domain(s2)
    ensures RangeVars(Append(s1, s2)) == RangeVars(s1) + RangeVars(s2)
  {
    if s1.Bind? {
      AppendVars(s1.rest, s2);
    }
  }

  lemma {:induction false} MapVars(s1: Subst, s2: Subst, vs: set<int>)
    requires RangeVars(s2) <= vs && Solved(s1, vs)
    ensures Domain(MapSubst(s1, s2)) == Domain(s2)
    ensures RangeVars(MapSubst(s1, s2)) <= vs - Domain(s1)
  {
    match s2
    case Empty =>
    case Bind(_, t, rest) =>
      SubstituteVars(s1, t, vs);
      MapVars(s1, rest, vs);
  }

  /** Solving what is left over after a solved substitution. */
  lemma {:induction false} CompSubstSolved(s1: Subst, s2: Subst, vs: set<int>)
    requires Solved(s2, vs) && Solved(s1, vs - Domain(s2))
    ensures Solved(CompSubst(s1, s2), vs)
    ensures Domain(CompSubst(s1, s2)) == Domain(s1) + Domain(s2)
  {
    MapVars(s1, s2, vs - Domain(s2));
    AppendVars(MapSubst(s1, s2), s1);
  }

  lemma FewerVars(a: set<int>, b: set<int>)
    requires a <= b
    ensures |a| <= |b|
    ensures a != b ==> |a| < |b|
  {
    assert b == a + (b - a);
  }

  /** What the recursive call on a pair of sons needs: fewer variables once a
      binding has been made, and until then a smaller pair over the same. */
  lemma {:induction false} Smaller(s: Subst, t1: Term, t2: Term, vs: set<int>)
    requires Solved(s, vs) && Vars(t1) <= vs && Vars(t2) <= vs
    ensures var us := Vars(Substitute(s, t1)) + Vars(Substitute(s, t2));
            us <= vs - Domain(s) && (if s == Empty then |us| <= |vs| && Substitute(s, t1) == t1 else |us| < |vs|)
  {
    SubstituteVars(s, t1, vs);
    SubstituteVars(s, t2, vs);
    SubstituteEmpty(t1);
    var us := Vars(Substitute(s, t1)) + Vars(Substitute(s, t2));
    FewerVars(us, vs);
    if s != Empty {
      assert s.v in Domain(s);
      assert us != vs;
    }
  }

  lemma SolvedMonotone(s: Subst, us: set<int>, vs: set<int>)
    requires Solved(s, us) && us <= vs
    ensures Solved(s, vs)
  {}

  /** The unifying substitution, or nothing where the source raises `failure`. */
  function Unify(term1: Term, term2: Term): (r: Option<Subst>)
    ensures r.Some? ==> Solved(r.value, Vars(term1) + Vars(term2))
    decreases |Vars(term1) + Vars(term2)|, Size(term1)
  {
    match (term1, term2)
    case (Var(n1), _) =>
      if term1 == term2 then Some(Empty)
      else if Occurs(n1, term2) then None
      else OccursIsVar(n1, term2); Some(Bind(n1, term2, Empty))
    case (_, Var(n2)) =>
      if Occurs(n2, term1) then None
      else OccursIsVar(n2, term1); Some(Bind(n2, term1, Empty))
    case (Term(op1, sons1), Term(op2, sons2)) =>
      if op1 == op2 then UnifySons(Empty, sons1, sons2, Vars(term1) + Vars(term2)) else None
  }

  /** The fold over the two lists of sons, which fails at different lengths. */
  function UnifySons(s: Subst, sons1: Terms, sons2: Terms, ghost vs: set<int>): (r: Option<Subst>)
    requires Solved(s, vs) && VarsOf(sons1) <= vs && VarsOf(sons2) <= vs
    ensures r.Some? ==> Solved(r.value, vs)
    decreases |vs|, SizeOf(sons1)
  {
    match (sons1, sons2)
    case (Nil, Nil) => Some(s)
    case (Cons(t1, rest1), Cons(t2, rest2)) =>
      Smaller(s, t1, t2, vs);
      var u := Unify(Substitute(s, t1), Substitute(s, t2));
      if u.None? then None
      else
        SolvedMonotone(u.value, Vars(Substitute(s, t1)) + Vars(Substitute(s, t2)), vs - Domain(s));
        CompSubstSolved(u.value, s, vs);
        UnifySons(CompSubst(u.value, s), rest1, rest2, vs)
    case _ => None
  }

  lemma {:induction false} SubstituteFresh(s: Subst, t: Term)
    requires Vars(t) !! Domain(s)
    ensures Substitute(s, t) == t
  {
    match t
    case Var(v) => LookupVars(s, v);
    case Term(_, sons) => SubstituteAllFresh(s, sons);
  }

  lemma {:induction false} SubstituteAllFresh(s: Subst, ts: Terms)
    requires VarsOf(ts) !! Domain(s)
    ensures SubstituteAll(s, ts) == ts
  {
    match ts
    case Nil =>
    case Cons(t, rest) =>
      SubstituteFresh(s, t);
      SubstituteAllFresh(s, rest);
  }

  /** A solved substitution does nothing the second time. */
  lemma {:induction false} SolvedIsIdempotent(s: Subst, vs: set<int>, t: Term)
    requires Solved(s, vs)
    ensures Substitute(s, Substitute(s, t)) == Substitute(s, t)
  {
    var us := vs + Vars(t);
    SubstituteVars(s, t, us);
    SubstituteFresh(s, Substitute(s, t));
  }

  /** `theta` is an instance of `s`: doing `s` first changes nothing. */
  ghost predicate Absorbs(theta: Subst, s: Subst) {
    forall t :: Substitute(theta, Substitute(s, t)) == Substitute(theta, t)
  }

  lemma {:induction false} AbsorbsTerm(theta: Subst, s: Subst, t: Term)
    requires forall v :: Substitute(theta, Lookup(v, s)) == Lookup(v, theta)
    ensures Substitute(theta, Substitute(s, t)) == Substitute(theta, t)
  {
    match t
    case Var(_) =>
    case Term(_, sons) => AbsorbsTerms(theta, s, sons);
  }

  lemma {:induction false} AbsorbsTerms(theta: Subst, s: Subst, ts: Terms)
    requires forall v :: Substitute(theta, Lookup(v, s)) == Lookup(v, theta)
    ensures SubstituteAll(theta, SubstituteAll(s, ts)) == SubstituteAll(theta, ts)
  {
    match ts
    case Nil =>
    case Cons(t, rest) =>
      AbsorbsTerm(theta, s, t);
      AbsorbsTerms(theta, s, rest);
  }

  /** Soundness: the substitution returned unifies the two terms. */
  lemma {:induction false} UnifySound(term1: Term, term2: Term)
    requires Unify(term1, term2).Some?
    ensures var s := Unify(term1, term2).value; Substitute(s, term1) == Substitute(s, term2)
    decreases |Vars(term1) + Vars(term2)|, Size(term1)
  {
    var s := Unify(term1, term2).value;
    match (term1, term2)
    case (Var(n1), _) =>
      if term1 != term2 {
        OccursIsVar(n1, term2);
        SubstituteFresh(s, term2);
      }
    case (_, Var(n2)) =>
      OccursIsVar(n2, term1);
      SubstituteFresh(s, term1);
    case (Term(op1, sons1), Term(op2, sons2)) =>
      UnifySonsSound(Empty, sons1, sons2, Vars(term1) + Vars(term2));
  }

  lemma {:induction false} UnifySonsSound(s: Subst, sons1: Terms, sons2: Terms, vs: set<int>)
    requires Solved(s, vs) && VarsOf(sons1) <= vs && VarsOf(sons2) <= vs
    requires UnifySons(s, sons1, sons2, vs).Some?
    ensures var r := UnifySons(s, sons1, sons2, vs).value;
            SubstituteAll(r, sons1) == SubstituteAll(r, sons2) && Absorbs(r, s)
    decreases |vs|, SizeOf(sons1)
  {
    var r := UnifySons(s, sons1, sons2, vs).value;
    match (sons1, sons2)
    case (Nil, Nil) =>
      forall t
        ensures Substitute(r, Substitute(s, t)) == Substitute(r, t)
      {
        SolvedIsIdempotent(s, vs, t);
      }
    case (Cons(t1, rest1), Cons(t2, rest2)) =>
      Smaller(s, t1, t2, vs);
      var u := Unify(Substitute(s, t1), Substitute(s, t2)).value;
      SolvedMonotone(u, Vars(Substitute(s, t1)) + Vars(Substitute(s, t2)), vs - Domain(s));
      CompSubstSolved(u, s, vs);
      var c := CompSubst(u, s);
      UnifySound(Substitute(s, t1), Substitute(s, t2));
      UnifySonsSound(c, rest1, rest2, vs);
      CompSubstIsComposition(u, s, t1);
      CompSubstIsComposition(u, s, t2);
      assert Substitute(r, Substitute(c, t1)) == Substitute(r, t1);
      assert Substitute(r, Substitute(c, t2)) == Substitute(r, t2);
      forall t
        ensures Substitute(r, Substitute(s, t)) == Substitute(r, t)
      {
        SolvedIsIdempotent(s, vs, t);
        CompSubstIsComposition(u, s, t);
        CompSubstIsComposition(u, s, Substitute(s, t));
        assert Substitute(r, Substitute(c, t)) == Substitute(r, t);
        assert Substitute(r, Substitute(c, Substitute(s, t))) == Substitute(r, Substitute(s, t));
      }
    case _ =>
  }

  lemma {:induction false} OccursSize(theta: Subst, n: int, t: Term)
    requires Occurs(n, t)
    ensures Size(Lookup(n, theta)) <= Size(Substitute(theta, t))
    ensures t != Var(n) ==> Size(Lookup(n, theta)) < Size(Substitute(theta, t))
  {
    match t
    case Var(_) =>
    case Term(_, sons) => OccursInSize(theta, n, sons);
  }

  lemma {:induction false} OccursInSize(theta: Subst, n: int, ts: Terms)
    requires OccursIn(n, ts)
    ensures Size(Lookup(n, theta)) < SizeOf(SubstituteAll(theta, ts))
  {
    if Occurs(n, ts.head) {
      OccursSize(theta, n, ts.head);
    } else {
      OccursInSize(theta, n, ts.tail);
    }
  }

  lemma {:induction false} BindAbsorbed(theta: Subst, n: int, t: Term)
    requires Lookup(n, theta) == Substitute(theta, t)
    ensures Absorbs(theta, Bind(n, t, Empty))
  {
    forall u
      ensures Substitute(theta, Substitute(Bind(n, t, Empty), u)) == Substitute(theta, u)
    {
      AbsorbsTerm(theta, Bind(n, t, Empty), u);
    }
  }

  lemma EmptyAbsorbed(theta: Subst)
    ensures Absorbs(theta, Empty)
  {
    forall t
      ensures Substitute(theta, Substitute(Empty, t)) == Substitute(theta, t)
    {
      SubstituteEmpty(t);
    }
  }

  /** Completeness and generality: when `theta` unifies the two terms, unify
      succeeds with a substitution of which `theta` is an instance. */
  lemma {:induction false} UnifyMostGeneral(term1: Term, term2: Term, theta: Subst)
    requires Substitute(theta, term1) == Substitute(theta, term2)
    ensures Unify(term1, term2).Some? && Absorbs(theta, Unify(term1, term2).value)
    decreases |Vars(term1) + Vars(term2)|, Size(term1)
  {
    EmptyAbsorbed(theta);
    match (term1, term2)
    case (Var(n1), _) =>
      if term1 != term2 {
        if Occurs(n1, term2) {
          OccursSize(theta, n1, term2);
        }
        BindAbsorbed(theta, n1, term2);
      }
    case (_, Var(n2)) =>
      if Occurs(n2, term1) {
        OccursSize(theta, n2, term1);
      }
      BindAbsorbed(theta, n2, term1);
    case (Term(op1, sons1), Term(op2, sons2)) =>
      UnifySonsMostGeneral(Empty, sons1, sons2, Vars(term1) + Vars(term2), theta);
  }

  lemma {:induction false} UnifySonsMostGeneral(s: Subst, sons1: Terms, sons2: Terms, vs: set<int>, theta: Subst)
    requires Solved(s, vs) && VarsOf(sons1) <= vs && VarsOf(sons2) <= vs
    requires SubstituteAll(theta, sons1) == SubstituteAll(theta, sons2) && Absorbs(theta, s)
    ensures UnifySons(s, sons1, sons2, vs).Some? && Absorbs(theta, UnifySons(s, sons1, sons2, vs).value)
    decreases |vs|, SizeOf(sons1)
  {
    match (sons1, sons2)
    case (Cons(t1, rest1), Cons(t2, rest2)) =>
      Smaller(s, t1, t2, vs);
      assert Substitute(theta, Substitute(s, t1)) == Substitute(theta, t1);
      assert Substitute(theta, Substitute(s, t2)) == Substitute(theta, t2);
      UnifyMostGeneral(Substitute(s, t1), Substitute(s, t2), theta);
      var u := Unify(Substitute(s, t1), Substitute(s, t2)).value;
      SolvedMonotone(u, Vars(Substitute(s, t1)) + Vars(Substitute(s, t2)), vs - Domain(s));
      CompSubstSolved(u, s, vs);
      var c := CompSubst(u, s);
      forall t
        ensures Substitute(theta, Substitute(c, t)) == Substitute(theta, t)
      {
        CompSubstIsComposition(u, s, t);
        assert Substitute(theta, Substitute(u, Substitute(s, t))) == Substitute(theta, Substitute(s, t));
        assert Substitute(theta, Substitute(s, t)) == Substitute(theta, t);
      }
      UnifySonsMostGeneral(c, rest1, rest2, vs, theta);
    case _ =>
  }

  /** Failure happens exactly when the terms have no unifier, and success yields
      an idempotent most general one over their own variables. */
  lemma {:induction false} UnifyCorrect(term1: Term, term2: Term)
    ensures Unify(term1, term2).Some? <==> exists theta :: Substitute(theta, term1) == Substitute(theta, term2)
    ensures Unify(term1, term2).Some? ==>
              var s := Unify(term1, term2).value;
              && Substitute(s, term1) == Substitute(s, term2)
              && Absorbs(s, s)
              && Domain(s) <= Vars(term1) + Vars(term2)
              && forall theta | Substitute(theta, term1) == Substitute(theta, term2) :: Absorbs(theta, s)
  {
    if Unify(term1, term2).Some? {
      UnifySound(term1, term2);
      forall t
        ensures var s := Unify(term1, term2).value; Substitute(s, Substitute(s, t)) == Substitute(s, t)
      {
        SolvedIsIdempotent(Unify(term1, term2).value, Vars(term1) + Vars(term2), t);
      }
    }
    forall theta | Substitute(theta, term1) == Substitute(theta, term2)
      ensures Unify(term1, term2).Some? && Absorbs(theta, Unify(term1, term2).value)
    {
      UnifyMostGeneral(term1, term2, theta);
    }
  }

  /** One-way matching of the first term against the second. */
  function Matching(term1: Term, term2: Term): Option<Subst> {
    MatchRec(Empty, term1, term2)
  }

  function MatchRec(s: Subst, term1: Term, term2: Term): Option<Subst>
    decreases term1
  {
    match (term1, term2)
    case (Var(v), m) =>
      if MemAssoc(v, s) then
        if m == Lookup(v, s) then Some(s) else None
      else Some(Bind(v, m, s))
    case (Term(op1, sons1), Term(op2, sons2)) =>
      if op1 == op2 then MatchSons(s, sons1, sons2) else None
    case _ => None
  }

  function MatchSons(s: Subst, sons1: Terms, sons2: Terms): Option<Subst>
    decreases sons1
  {
    match (sons1, sons2)
    case (Nil, Nil) => Some(s)
    case (Cons(t1, rest1), Cons(t2, rest2)) =>
      var r := MatchRec(s, t1, t2);
      if r.None? then None else MatchSons(r.value, rest1, rest2)
    case _ => None
  }

  /** The bindings of `s` are kept in `r`. */
  ghost predicate Extends(s: Subst, r: Subst) {
    forall v | v in Domain(s) :: v in Domain(r) && Lookup(v, r) == Lookup(v, s)
  }

  lemma {:induction false} ExtendsKeeps(s: Subst, r: Subst, t: Term)
    requires Extends(s, r) && Vars(t) <= Domain(s)
    ensures Substitute(r, t) == Substitute(s, t)
  {
    match t
    case Var(_) =>
    case Term(_, sons) => ExtendsKeepsAll(s, r, sons);
  }

  lemma {:induction false} ExtendsKeepsAll(s: Subst, r: Subst, ts: Terms)
    requires Extends(s, r) && VarsOf(ts) <= Domain(s)
    ensures SubstituteAll(r, ts) == SubstituteAll(s, ts)
  {
    match ts
    case Nil =>
    case Cons(t, rest) =>
      ExtendsKeeps(s, r, t);
      ExtendsKeepsAll(s, r, rest);
  }

  lemma {:induction false} MemAssocIsDomain(v: int, s: Subst)
    ensures MemAssoc(v, s) <==> v in Domain(s)
  {
    if s.Bind? {
      MemAssocIsDomain(v, s.rest);
    }
  }

  lemma {:induction false} MatchSound(s: Subst, term1: Term, term2: Term)
    requires MatchRec(s, term1, term2).Some?
    ensures var r := MatchRec(s, term1, term2).value;
            Extends(s, r) && Domain(r) == Domain(s) + Vars(term1) && Substitute(r, term1) == term2
    decreases term1
  {
    match (term1, term2)
    case (Var(v), _) => MemAssocIsDomain(v, s);
    case (Term(_, sons1), Term(_, sons2)) => MatchSonsSound(s, sons1, sons2);
    case _ =>
  }

  lemma {:induction false} MatchSonsSound(s: Subst, sons1: Terms, sons2: Terms)
    requires MatchSons(s, sons1, sons2).Some?
    ensures var r := MatchSons(s, sons1, sons2).value;
            Extends(s, r) && Domain(r) == Domain(s) + VarsOf(sons1) && SubstituteAll(r, sons1) == sons2
    decreases sons1
  {
    match (sons1, sons2)
    case (Cons(t1, rest1), Cons(t2, rest2)) =>
      MatchSound(s, t1, t2);
      var q := MatchRec(s, t1, t2).value;
      MatchSonsSound(q, rest1, rest2);
      ExtendsKeeps(q, MatchSons(q, rest1, rest2).value, t1);
    case _ =>
  }

  lemma {:induction false} MatchComplete(s: Subst, term1: Term, term2: Term, theta: Subst)
    requires Substitute(theta, term1) == term2
    requires forall v | v in Domain(s) :: Lookup(v, theta) == Lookup(v, s)
    ensures var r := MatchRec(s, term1, term2);
            r.Some? && forall v | v in Domain(r.value) :: Lookup(v, theta) == Lookup(v, r.value)
    decreases term1
  {
    match (term1, term2)
    case (Var(v), _) => MemAssocIsDomain(v, s);
    case (Term(_, sons1), Term(_, sons2)) => MatchSonsComplete(s, sons1, sons2, theta);
    case _ =>
  }

  lemma {:induction false} MatchSonsComplete(s: Subst, sons1: Terms, sons2: Terms, theta: Subst)
    requires SubstituteAll(theta, sons1) == sons2
    requires forall v | v in Domain(s) :: Lookup(v, theta) == Lookup(v, s)
    ensures var r := MatchSons(s, sons1, sons2);
            r.Some? && forall v | v in Domain(r.value) :: Lookup(v, theta) == Lookup(v, r.value)
    decreases sons1
  {
    match (sons1, sons2)
    case (Cons(t1, rest1), Cons(t2, rest2)) =>
      MatchComplete(s, t1, t2, theta);
      MatchSonsComplete(MatchRec(s, t1, t2).value, rest1, rest2, theta);
    case _ =>
  }

  /** Matching succeeds exactly when the second term is an instance of the
      first, with the one substitution of the first term's variables that makes
      it so. */
  lemma {:induction false} MatchingCorrect(term1: Term, term2: Term)
    ensures Matching(term1, term2).Some? <==> exists theta :: Substitute(theta, term1) == term2
    ensures Matching(term1, term2).Some? ==>
              var s := Matching(term1, term2).value;
              && Substitute(s, term1) == term2 && Domain(s) == Vars(term1)
              && forall theta, v | Substitute(theta, term1) == term2 && v in Vars(term1) ::
                   Lookup(v, theta) == Lookup(v, s)
  {
    if Matching(term1, term2).Some? {
      MatchSound(Empty, term1, term2);
    }
    forall theta | Substitute(theta, term1) == term2
      ensures Matching(term1, term2).Some?
      ensures forall v | v in Domain(Matching(term1, term2).value) ::
                Lookup(v, theta) == Lookup(v, Matching(term1, term2).value)
    {
      MatchComplete(Empty, term1, term2, theta);
    }
  }
}
