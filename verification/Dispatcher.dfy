/** Dispatch on the type of an object, with a cache for matches by inheritance. */
module Dispatcher {

  type Type = nat
  type Fn = nat

  import opened Options

  /** A registration: a type and its handler. */
  datatype Entry = Entry(ty: Type, fn: Fn)

  /** Objects of the first type are instances of the second. */
  type Subtyping = (Type, Type) -> bool

  predicate Registered(entries: seq<Entry>, ty: Type) {
    exists i :: 0 <= i < |entries| && entries[i].ty == ty
  }

  /** An ordered dictionary has each key once. */
  predicate DistinctTypes(entries: seq<Entry>) {
    forall i, j :: 0 <= i < j < |entries| ==> entries[i].ty != entries[j].ty
  }

  function Exact(entries: seq<Entry>, ty: Type): Option<Fn> {
    if entries == [] then None
    else if entries[0].ty == ty then Some(entries[0].fn)
    else Exact(entries[1..], ty)
  }

  function FirstSuper(isA: Subtyping, entries: seq<Entry>, ty: Type): Option<Fn> {
    if entries == [] then None
    else if isA(ty, entries[0].ty) then Some(entries[0].fn)
    else FirstSuper(isA, entries[1..], ty)
  }

  /** The rule without a cache: the exact type, else the first registered supertype, else the fallback; None is an error. */
  function Rule(isA: Subtyping, entries: seq<Entry>, fallback: Option<Fn>, ty: Type): Option<Fn> {
    if Exact(entries, ty).Some? then Exact(entries, ty)
    else if FirstSuper(isA, entries, ty).Some? then FirstSuper(isA, entries, ty)
    else fallback
  }

  /** Storing a key in an ordered dictionary: a known key keeps its place. */
  function Insert(entries: seq<Entry>, e: Entry): seq<Entry> {
    if entries == [] then [e]
    else if entries[0].ty == e.ty then [e] + entries[1..]
    else [entries[0]] + Insert(entries[1..], e)
  }

  function InsertAll(entries: seq<Entry>, es: seq<Entry>): seq<Entry>
    decreases |es|
  {
    if es == [] then entries else InsertAll(Insert(entries, es[0]), es[1..])
  }

  /** The entries of `other` whose types are unknown go to the end. */
  function Union(entries: seq<Entry>, other: seq<Entry>): seq<Entry>
    decreases |other|
  {
    if other == [] then entries
    else Union(if Exact(entries, other[0].ty).Some? then entries else entries + [other[0]], other[1..])
  }

  lemma {:induction false} ExactMeansRegistered(entries: seq<Entry>, ty: Type)
    ensures Exact(entries, ty).Some? <==> Registered(entries, ty)
  {
    if entries != [] {
      ExactMeansRegistered(entries[1..], ty);
      assert forall i :: 1 <= i < |entries| ==> entries[1..][i - 1] == entries[i];
      if Registered(entries, ty) && entries[0].ty != ty {
        var i :| 0 <= i < |entries| && entries[i].ty == ty;
        assert entries[1..][i - 1].ty == ty;
      }
    }
  }

  lemma {:induction false} ExactAppend(entries: seq<Entry>, e: Entry, ty: Type)
    ensures Exact(entries + [e], ty) ==
            if Exact(entries, ty).Some? then Exact(entries, ty) else if e.ty == ty then Some(e.fn) else None
  {
    if entries == [] {
      assert (entries + [e])[1..] == [];
    } else {
      assert (entries + [e])[1..] == entries[1..] + [e];
      ExactAppend(entries[1..], e, ty);
    }
  }

  /** Merging: a handler already there wins; the other dispatcher only adds handlers for types unknown before. */
  lemma {:induction false} UnionPrefersOwn(entries: seq<Entry>, other: seq<Entry>, ty: Type)
    ensures Exact(Union(entries, other), ty) ==
            if Exact(entries, ty).Some? then Exact(entries, ty) else Exact(other, ty)
    decreases |other|
  {
    if other != [] {
      ExactAppend(entries, other[0], ty);
      UnionPrefersOwn(if Exact(entries, other[0].ty).Some? then entries else entries + [other[0]], other[1..], ty);
    }
  }

  /** An inserted key is found with its new value, all others as before. */
  lemma {:induction false} InsertLookup(entries: seq<Entry>, e: Entry, ty: Type)
    ensures Exact(Insert(entries, e), ty) == if ty == e.ty then Some(e.fn) else Exact(entries, ty)
  {
    if entries != [] && entries[0].ty != e.ty {
      InsertLookup(entries[1..], e, ty);
    }
  }

  lemma DistinctCons(e: Entry, entries: seq<Entry>)
    ensures DistinctTypes([e] + entries) <==> DistinctTypes(entries) && !Registered(entries, e.ty)
  {
    var all := [e] + entries;
    if DistinctTypes(all) {
      forall i, j | 0 <= i < j < |entries|
        ensures entries[i].ty != entries[j].ty
      {
        assert all[i + 1].ty != all[j + 1].ty;
      }
      forall i | 0 <= i < |entries|
        ensures entries[i].ty != e.ty
      {
        assert all[0].ty != all[i + 1].ty;
      }
    }
  }

  /** Registering keeps each type once ... */
  lemma {:induction false} InsertDistinct(entries: seq<Entry>, e: Entry)
    requires DistinctTypes(entries)
    ensures DistinctTypes(Insert(entries, e))
  {
    if entries != [] {
      var (head, tail) := (entries[0], entries[1..]);
      assert entries == [head] + tail;
      DistinctCons(head, tail);
      if head.ty == e.ty {
        DistinctCons(e, tail);
      } else {
        InsertDistinct(tail, e);
        InsertLookup(tail, e, head.ty);
        ExactMeansRegistered(tail, head.ty);
        ExactMeansRegistered(Insert(tail, e), head.ty);
        DistinctCons(head, Insert(tail, e));
      }
    }
  }

  lemma {:induction false} InsertAllDistinct(entries: seq<Entry>, es: seq<Entry>)
    requires DistinctTypes(entries)
    ensures DistinctTypes(InsertAll(entries, es))
    decreases |es|
  {
    if es != [] {
      InsertDistinct(entries, es[0]);
      InsertAllDistinct(Insert(entries, es[0]), es[1..]);
    }
  }

  /** ... and so does adding an unknown type at the end. */
  lemma AppendDistinct(entries: seq<Entry>, e: Entry)
    requires DistinctTypes(entries) && Exact(entries, e.ty).None?
    ensures DistinctTypes(entries + [e])
  {
    ExactMeansRegistered(entries, e.ty);
  }

  /** The rule in terms of the registrations: the handler of the type itself, else of the first supertype, else the fallback. */
  lemma {:induction false} RulePicks(isA: Subtyping, entries: seq<Entry>, fallback: Option<Fn>, ty: Type, i: nat)
    requires i <= |entries|
    ensures i < |entries| && entries[i].ty == ty && (forall j :: 0 <= j < i ==> entries[j].ty != ty) ==>
              Rule(isA, entries, fallback, ty) == Some(entries[i].fn)
    ensures i < |entries| && isA(ty, entries[i].ty) && (forall j :: 0 <= j < i ==> !isA(ty, entries[j].ty))
            && (forall j :: 0 <= j < |entries| ==> entries[j].ty != ty) ==>
              Rule(isA, entries, fallback, ty) == Some(entries[i].fn)
    ensures (forall j :: 0 <= j < |entries| ==> entries[j].ty != ty && !isA(ty, entries[j].ty)) ==>
              Rule(isA, entries, fallback, ty) == fallback
  {
    if forall j :: 0 <= j < i ==> entries[j].ty != ty {
      FirstOfType(entries, ty, i);
    }
    if forall j :: 0 <= j < i ==> !isA(ty, entries[j].ty) {
      FirstOfSupertype(isA, entries, ty, i);
    }
    ExactMeansRegistered(entries, ty);
    NoSupertype(isA, entries, ty);
  }

  lemma {:induction false} FirstOfType(entries: seq<Entry>, ty: Type, i: nat)
    requires i <= |entries| && forall j :: 0 <= j < i ==> entries[j].ty != ty
    ensures i < |entries| && entries[i].ty == ty ==> Exact(entries, ty) == Some(entries[i].fn)
  {
    if i > 0 {
      FirstOfType(entries[1..], ty, i - 1);
    }
  }

  lemma {:induction false} FirstOfSupertype(isA: Subtyping, entries: seq<Entry>, ty: Type, i: nat)
    requires i <= |entries| && forall j :: 0 <= j < i ==> !isA(ty, entries[j].ty)
    ensures i < |entries| && isA(ty, entries[i].ty) ==> FirstSuper(isA, entries, ty) == Some(entries[i].fn)
  {
    if i > 0 {
      FirstOfSupertype(isA, entries[1..], ty, i - 1);
    }
  }

  lemma {:induction false} NoSupertype(isA: Subtyping, entries: seq<Entry>, ty: Type)
    ensures (forall j :: 0 <= j < |entries| ==> !isA(ty, entries[j].ty)) ==> FirstSuper(isA, entries, ty).None?
  {
    if entries != [] {
      NoSupertype(isA, entries[1..], ty);
    }
  }

  /** Registering keeps the order of what is there: a known type keeps its place, an unknown one goes to the end. */
  lemma {:induction false} InsertKeepsOrder(entries: seq<Entry>, e: Entry)
    ensures Types(Insert(entries, e)) == if Registered(entries, e.ty) then Types(entries) else Types(entries) + [e.ty]
  {
    if entries != [] {
      var (head, tail) := (entries[0], entries[1..]);
      InsertKeepsOrder(tail, e);
      ExactMeansRegistered(entries, e.ty);
      ExactMeansRegistered(tail, e.ty);
      assert Types(entries) == [head.ty] + Types(tail);
      if head.ty == e.ty {
        assert Registered(entries, e.ty);
        assert Types([e] + tail) == [e.ty] + Types(tail);
      } else {
        assert Types([head] + Insert(tail, e)) == [head.ty] + Types(Insert(tail, e));
      }
    }
  }

  /** Merging keeps all entries where they are and only adds at the end. */
  lemma {:induction false} UnionKeepsOrder(entries: seq<Entry>, other: seq<Entry>)
    ensures entries <= Union(entries, other)
    decreases |other|
  {
    if other != [] {
      UnionKeepsOrder(if Exact(entries, other[0].ty).Some? then entries else entries + [other[0]], other[1..]);
    }
  }

  function Types(entries: seq<Entry>): seq<Type> {
    seq(|entries|, i requires 0 <= i < |entries| => entries[i].ty)
  }

  class TypeBasedDispatcher {
    const isA: Subtyping
    var mapping: seq<Entry>
    var cache: map<Type, Option<Fn>>
    var fallback: Option<Fn>

    /** Each type is registered once, and whatever the cache remembers is what the search by inheritance would find now. */
    ghost predicate Valid()
      reads this
    {
      && DistinctTypes(mapping)
      && forall ty :: ty in cache ==> cache[ty] == FirstSuper(isA, mapping, ty)
    }

    constructor (isA: Subtyping, entries: seq<Entry>)
      ensures Valid() && this.isA == isA && mapping == InsertAll([], entries) && fallback == None
    {
      InsertAllDistinct([], entries);
      this.isA := isA;
      mapping, cache, fallback := InsertAll([], entries), map[], None;
    }

    method AddFallback(fn: Fn)
      requires Valid()
      modifies this
      ensures Valid() && mapping == old(mapping) && fallback == Some(fn)
    {
      fallback := Some(fn);
    }

    /** `+=`, also of a dispatcher with itself. */
    method Merge(other: TypeBasedDispatcher)
      requires Valid()
      modifies this
      ensures Valid() && mapping == Union(old(mapping), old(other.mapping)) && fallback == old(fallback)
    {
      var theirs := other.mapping;
      for i := 0 to |theirs|
        invariant Union(mapping, theirs[i..]) == Union(old(mapping), theirs)
        invariant fallback == old(fallback) && DistinctTypes(mapping)
      {
        assert theirs[i..][1..] == theirs[i + 1..];
        if Exact(mapping, theirs[i].ty).None? {
          AppendDistinct(mapping, theirs[i]);
          mapping := mapping + [theirs[i]];
        }
      }
      cache := map[];
    }

    /** Calling the dispatcher picks what the uncached rule picks, and changes only the cache. */
    method Dispatch(ty: Type) returns (fn: Option<Fn>)
      requires Valid()
      modifies this`cache
      ensures Valid() && fn == Rule(isA, mapping, fallback, ty)
    {
      fn := Exact(mapping, ty);
      if fn.Some? {
        return;
      }
      if ty in cache && cache[ty].Some? {
        return cache[ty];
      }
      for i := 0 to |mapping|
        invariant FirstSuper(isA, mapping[i..], ty) == FirstSuper(isA, mapping, ty) && cache == old(cache)
      {
        assert mapping[i..][1..] == mapping[i + 1..];
        if isA(ty, mapping[i].ty) {
          fn := Some(mapping[i].fn);
          cache := cache[ty := fn];
          return;
        }
      }
      cache := cache[ty := None];
      fn := fallback;
    }
  }

  // ---------- Whole histories ----------

  datatype Event = Call(ty: Type) | Fallback(fn: Fn) | MergeWith(entries: seq<Entry>)

  /** The answers of the uncached rule over a history, with the registrations and fallback at each call. */
  function Answers(isA: Subtyping, entries: seq<Entry>, fallback: Option<Fn>, events: seq<Event>): seq<Option<Fn>>
    decreases |events|
  {
    if events == [] then []
    else
      match events[0]
      case Call(ty) => [Rule(isA, entries, fallback, ty)] + Answers(isA, entries, fallback, events[1..])
      case Fallback(fn) => Answers(isA, entries, Some(fn), events[1..])
      case MergeWith(other) => Answers(isA, Union(entries, InsertAll([], other)), fallback, events[1..])
  }

  /** A dispatcher that goes through any history answers every call as the uncached rule does. */
  method Replay(isA: Subtyping, entries: seq<Entry>, events: seq<Event>) returns (answers: seq<Option<Fn>>)
    ensures answers == Answers(isA, InsertAll([], entries), None, events)
  {
    var d := new TypeBasedDispatcher(isA, entries);
    answers := [];
    for i := 0 to |events|
      invariant d.Valid() && d.isA == isA && fresh(d)
      invariant answers + Answers(isA, d.mapping, d.fallback, events[i..]) == Answers(isA, InsertAll([], entries), None, events)
    {
      assert events[i..][1..] == events[i + 1..];
      match events[i]
      case Call(ty) =>
        var fn := d.Dispatch(ty);
        answers := answers + [fn];
      case Fallback(fn) => d.AddFallback(fn);
      case MergeWith(other) =>
        var o := new TypeBasedDispatcher(isA, other);
        d.Merge(o);
    }
  }
}
