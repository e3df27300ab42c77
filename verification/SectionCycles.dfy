/**
 The section pass of a presentation surface: a depth-first walk over the child
 relation that must find every cycle and nothing else.
 */
module SectionCycles {
  import opened Wrappers
  import opened Sequences

  type Id = string

  datatype ContractError = InvalidSurface | InvalidComponent | InvalidSection | InvalidAction

  /**
   A component, with what its own fields decide: whether its identifier, label and source fit,
   and the fault its validator finds. Only sections have children, only forms an action.
   */
  datatype Component =
    | Section(id: Id, fits: bool, fault: Option<ContractError>, children: seq<Id>)
    | Form(id: Id, fits: bool, fault: Option<ContractError>, actionId: Id)
    | Leaf(id: Id, fits: bool, fault: Option<ContractError>)

  /** What is disposed of, and whether the disposition's own fields fit. */
  datatype Disposition = Disposition(fits: bool, contract: string, pointer: string)

  datatype Surface = Surface(fits: bool, components: seq<Component>, dispositions: seq<Disposition>)

  type Sections = map<Id, seq<Id>>

  predicate Child(sections: Sections, parent: Id, child: Id) {
    parent in sections && child in sections[parent]
  }

  ghost predicate IsPath(sections: Sections, p: seq<Id>) {
    forall i :: 0 <= i < |p| - 1 ==> Child(sections, p[i], p[i + 1])
  }

  /** A path that returns to where it started. */
  ghost predicate IsCycle(sections: Sections, p: seq<Id>) {
    |p| >= 2 && p[0] == p[|p| - 1] && IsPath(sections, p)
  }

  ghost predicate Acyclic(sections: Sections) {
    forall p :: !IsCycle(sections, p)
  }

  /** A finished region: closed under children, and no cycle starts in it. */
  ghost predicate Finished(sections: Sections, visited: set<Id>) {
    && (forall x, y :: x in visited && Child(sections, x, y) ==> y in visited)
    && (forall p :: IsCycle(sections, p) ==> p[0] !in visited)
  }

  /** The ids on the current path are exactly those being visited. */
  ghost predicate OnPath(sections: Sections, path: seq<Id>, visiting: set<Id>) {
    && IsPath(sections, path)
    && (forall x :: x in visiting <==> x in path)
  }

  lemma {:induction false} PathStays(sections: Sections, region: set<Id>, p: seq<Id>, k: nat)
    requires forall x, y :: x in region && Child(sections, x, y) ==> y in region
    requires IsPath(sections, p) && k < |p| && p[0] in region
    ensures p[k] in region
  {
    if k > 0 {
      PathStays(sections, region, p, k - 1);
      assert Child(sections, p[k - 1], p[k]);
    }
  }

  /** A node all of whose children are finished can be finished too. */
  lemma FinishNode(sections: Sections, visited: set<Id>, id: Id)
    requires Finished(sections, visited) && id !in visited
    requires forall y :: Child(sections, id, y) ==> y in visited
    ensures Finished(sections, visited + {id})
  {
    forall p | IsCycle(sections, p) ensures p[0] !in visited + {id} {
      if p[0] == id {
        assert Child(sections, p[0], p[1]);
        var rest := p[1..];
        forall i | 0 <= i < |rest| - 1 ensures Child(sections, rest[i], rest[i + 1]) {
          assert Child(sections, p[i + 1], p[i + 2]);
        }
        PathStays(sections, visited, rest, |rest| - 1);
        assert false;
      }
    }
  }

  /** Meeting a node of the current path again closes a cycle. */
  lemma PathClosesCycle(sections: Sections, path: seq<Id>, id: Id)
    requires IsPath(sections, path + [id]) && id in path
    ensures exists p :: IsCycle(sections, p)
  {
    var k :| 0 <= k < |path| && path[k] == id;
    var p := (path + [id])[k..];
    forall i | 0 <= i < |p| - 1 ensures Child(sections, p[i], p[i + 1]) {
      assert Child(sections, (path + [id])[k + i], (path + [id])[k + i + 1]);
    }
    assert IsCycle(sections, p);
  }

  class SectionPass {
    const sections: Sections
    ghost const ids: set<Id>
    var visiting: set<Id>
    var visited: set<Id>

    constructor (sections: Sections, ghost ids: set<Id>)
      ensures this.sections == sections && this.ids == ids && visiting == {} && visited == {}
    {
      this.sections, this.ids := sections, ids;
      visiting, visited := {}, {};
    }

    /** Children are components of the surface. */
    ghost predicate Known() {
      forall x, y :: Child(sections, x, y) ==> y in ids
    }

    /**
     `path` is the chain of calls above. Returning true finishes `id` and everything
     below it; returning false means a cycle exists.
     */
    method Visit(id: Id, ghost path: seq<Id>) returns (ok: bool)
      requires Known() && id in ids && visiting <= ids
      requires OnPath(sections, path, visiting) && IsPath(sections, path + [id])
      requires Finished(sections, visited) && visiting !! visited
      modifies this
      ensures ok ==> visiting == old(visiting) && old(visited) + {id} <= visited && visiting !! visited
      ensures ok ==> Finished(sections, visited)
      ensures !ok ==> exists p :: IsCycle(sections, p)
      decreases ids - visiting, 0
    {
      if id in visited {
        return true;
      }
      if id in visiting {
        PathClosesCycle(sections, path, id);
        return false;
      }
      visiting := visiting + {id};
      if id in sections {
        ok := VisitChildren(id, sections[id], path);
        if !ok {
          return false;
        }
      }
      FinishNode(sections, visited, id);
      visiting := visiting - {id};
      visited := visited + {id};
      return true;
    }

    method VisitChildren(id: Id, children: seq<Id>, ghost path: seq<Id>) returns (ok: bool)
      requires Known() && id in sections && children == sections[id]
      requires visiting <= ids && id in visiting
      requires OnPath(sections, path + [id], visiting)
      requires Finished(sections, visited) && visiting !! visited
      modifies this
      ensures ok ==> visiting == old(visiting) && old(visited) <= visited && visiting !! visited
      ensures ok ==> Finished(sections, visited) && forall y :: y in children ==> y in visited
      ensures !ok ==> exists p :: IsCycle(sections, p)
      decreases ids - visiting, 1
    {
      for i := 0 to |children|
        invariant visiting == old(visiting) && old(visited) <= visited && visiting !! visited
        invariant Finished(sections, visited) && forall y :: y in children[..i] ==> y in visited
      {
        assert Child(sections, id, children[i]);
        ExtendPath(sections, path + [id], children[i]);
        ok := Visit(children[i], path + [id]);
        if !ok {
          return false;
        }
        PrefixPush(children, i);
      }
      WholePrefix(children);
      return true;
    }

    /** Every component in whatever order the set yields them. */
    method VisitAll(identifiers: set<Id>) returns (ok: bool)
      requires Known() && identifiers == ids && sections.Keys <= ids
      requires visiting == {} && visited == {}
      modifies this
      ensures ok <==> Acyclic(sections)
    {
      var pending := identifiers;
      while pending != {}
        invariant pending <= ids && ids - pending <= visited
        invariant visiting == {} && Finished(sections, visited)
        decreases pending
      {
        var id :| id in pending;
        ok := Visit(id, []);
        if !ok {
          return false;
        }
        pending := pending - {id};
      }
      AllFinished(sections, visited);
      return true;
    }
  }

  lemma ExtendPath(sections: Sections, path: seq<Id>, child: Id)
    requires path != [] && IsPath(sections, path) && Child(sections, path[|path| - 1], child)
    ensures IsPath(sections, path + [child])
  {
    var p := path + [child];
    forall i | 0 <= i < |p| - 1 ensures Child(sections, p[i], p[i + 1]) {
      if i < |path| - 1 {
        assert Child(sections, path[i], path[i + 1]);
      }
    }
  }

  lemma AllFinished(sections: Sections, visited: set<Id>)
    requires Finished(sections, visited) && sections.Keys <= visited
    ensures Acyclic(sections)
  {
    forall p ensures !IsCycle(sections, p) {
      if |p| >= 2 && IsPath(sections, p) {
        assert Child(sections, p[0], p[1]);
      }
    }
  }

  // ------------------------------------------------------------ the whole pass

  ghost predicate DistinctIds(components: seq<Component>) {
    forall i, j :: 0 <= i < j < |components| ==> components[i].id != components[j].id
  }

  function Ids(components: seq<Component>): set<Id> {
    set c | c in components :: c.id
  }

  ghost predicate ChildrenKnown(components: seq<Component>) {
    forall c, y :: c in components && c.Section? && y in c.children ==> y in Ids(components)
  }

  /** The child relation, read off the components themselves. */
  ghost predicate ChildOf(components: seq<Component>, parent: Id, child: Id) {
    exists c :: c in components && c.Section? && c.id == parent && child in c.children
  }

  ghost predicate HasCycle(components: seq<Component>) {
    exists p: seq<Id> :: |p| >= 2 && p[0] == p[|p| - 1] && ChildPath(components, p)
  }

  ghost predicate ChildPath(components: seq<Component>, p: seq<Id>) {
    forall i :: 0 <= i < |p| - 1 ==> ChildOf(components, p[i], p[i + 1])
  }

  /** The section map holds exactly the sections. */
  ghost predicate Maps(sections: Sections, components: seq<Component>) {
    && sections.Keys <= Ids(components)
    && forall x, y :: Child(sections, x, y) <==> ChildOf(components, x, y)
  }

  lemma MapsCycles(sections: Sections, components: seq<Component>)
    requires Maps(sections, components)
    ensures Acyclic(sections) <==> !HasCycle(components)
  {
    forall p: seq<Id> | |p| >= 2 && p[0] == p[|p| - 1]
      ensures IsCycle(sections, p) <==> ChildPath(components, p)
    {
      assert forall i :: 0 <= i < |p| - 1 ==>
        (Child(sections, p[i], p[i + 1]) <==> ChildOf(components, p[i], p[i + 1]));
    }
  }

  // ------------------------------------------------------------ the components and dispositions

  function Actions(components: seq<Component>): set<Id> {
    set c | c in components && c.Form? :: c.actionId
  }

  /** What is wrong with a component that follows `before`, if anything. */
  function FaultAfter(before: seq<Component>, c: Component): Option<ContractError> {
    if !c.fits || c.id in Ids(before) then Some(InvalidComponent)
    else if c.fault.Some? then c.fault
    else if c.Form? && c.actionId in Actions(before) then Some(InvalidAction)
    else None
  }

  /** Every component is right by itself and no identifier or action identifier repeats. */
  ghost predicate ComponentsFit(components: seq<Component>) {
    && (forall c :: c in components ==> c.fits && c.fault.None?)
    && DistinctIds(components)
    && forall i, j :: 0 <= i < j < |components| && components[i].Form? && components[j].Form? ==>
         components[i].actionId != components[j].actionId
  }

  /** Which fault a component is refused for, in terms of the ones before it. */
  lemma FaultExactly(before: seq<Component>, c: Component)
    ensures var repeated := exists b :: b in before && b.id == c.id;
            FaultAfter(before, c) == Some(InvalidComponent)
            <==> !c.fits || repeated || c.fault == Some(InvalidComponent)
    ensures FaultAfter(before, c).Some? && FaultAfter(before, c) != Some(InvalidComponent) ==>
              if c.fault.Some? then FaultAfter(before, c) == c.fault
              else FaultAfter(before, c) == Some(InvalidAction)
                   && c.Form? && exists b :: b in before && b.Form? && b.actionId == c.actionId
    ensures FaultAfter(before, c).None? <==>
              && c.fits && c.fault.None? && (forall b :: b in before ==> b.id != c.id)
              && (c.Form? ==> forall b :: b in before && b.Form? ==> b.actionId != c.actionId)
  {
  }

  lemma FitsExactly(components: seq<Component>, c: Component)
    requires ComponentsFit(components)
    ensures ComponentsFit(components + [c]) <==> FaultAfter(components, c).None?
  {
    var more := components + [c];
    assert more[|components|] == c && c in more;
    assert forall i :: 0 <= i < |components| ==> more[i] == components[i] && components[i] in components;
    if c.id in Ids(components) {
      var i :| 0 <= i < |components| && components[i].id == c.id;
      assert more[i].id == more[|components|].id;
    }
    if c.Form? && c.actionId in Actions(components) {
      var i :| 0 <= i < |components| && components[i].Form? && components[i].actionId == c.actionId;
      assert more[i].Form? && more[|components|].Form?;
    }
  }

  lemma PrefixFits(components: seq<Component>, k: nat)
    requires k <= |components|
    ensures ComponentsFit(components) ==> ComponentsFit(components[..k])
  {
    assert forall i :: 0 <= i < k ==> components[..k][i] == components[i];
  }

  ghost predicate DispositionsFit(ds: seq<Disposition>) {
    && (forall d :: d in ds ==> d.fits)
    && forall i, j :: 0 <= i < j < |ds| ==> (ds[i].contract, ds[i].pointer) != (ds[j].contract, ds[j].pointer)
  }

  /** The first loop: the first fault met, or the set of all identifiers. */
  method ValidateComponents(components: seq<Component>) returns (r: Result<set<Id>, ContractError>)
    ensures r.Ok? <==> ComponentsFit(components)
    ensures r.Ok? ==> r.value == Ids(components)
    ensures r.Err? ==> exists k :: 0 <= k < |components| && ComponentsFit(components[..k])
                                   && FaultAfter(components[..k], components[k]) == Some(r.error)
  {
    var identifiers: set<Id>, actions: set<Id> := {}, {};
    for k := 0 to |components|
      invariant ComponentsFit(components[..k])
      invariant identifiers == Ids(components[..k]) && actions == Actions(components[..k])
    {
      var c := components[k];
      FitsExactly(components[..k], c);
      assert components[..k + 1] == components[..k] + [c];
      PrefixFits(components, k + 1);
      if !c.fits || c.id in identifiers {
        return Err(InvalidComponent);
      }
      identifiers := identifiers + {c.id};
      if c.fault.Some? {
        return Err(c.fault.value);
      }
      if c.Form? {
        if c.actionId in actions {
          return Err(InvalidAction);
        }
        actions := actions + {c.actionId};
      }
    }
    WholePrefix(components);
    return Ok(identifiers);
  }

  method ValidateDispositions(ds: seq<Disposition>) returns (fit: bool)
    ensures fit <==> DispositionsFit(ds)
  {
    var seen: set<(string, string)> := {};
    for k := 0 to |ds|
      invariant DispositionsFit(ds[..k])
      invariant forall i :: 0 <= i < k ==> (ds[i].contract, ds[i].pointer) in seen
      invariant forall p :: p in seen ==> exists i :: 0 <= i < k && (ds[i].contract, ds[i].pointer) == p
    {
      if !ds[k].fits || (ds[k].contract, ds[k].pointer) in seen {
        assert ds[k] in ds;
        return false;
      }
      seen := seen + {(ds[k].contract, ds[k].pointer)};
      PrefixPush(ds, k);
    }
    WholePrefix(ds);
    return true;
  }

  // ------------------------------------------------------------ the sections

  /** Known children and no cycle: the pass succeeds exactly then, whatever order the set is walked in. */
  method ValidateSections(components: seq<Component>, identifiers: set<Id>) returns (valid: bool)
    requires DistinctIds(components) && identifiers == Ids(components)
    ensures valid <==> ChildrenKnown(components) && !HasCycle(components)
  {
    var sections := SectionMap(components);
    if exists x :: x in sections && exists y :: y in sections[x] && y !in identifiers {
      var x :| x in sections && exists y :: y in sections[x] && y !in identifiers;
      var y :| y in sections[x] && y !in identifiers;
      assert Child(sections, x, y);
      return false;
    }
    forall c, y | c in components && c.Section? && y in c.children ensures y in identifiers {
      assert ChildOf(components, c.id, y);
      assert Child(sections, c.id, y);
    }
    var pass := new SectionPass(sections, identifiers);
    var acyclic := pass.VisitAll(identifiers);
    MapsCycles(sections, components);
    return acyclic;
  }

  /** The whole validation of a surface, and which check it fails. */
  method Validate(surface: Surface) returns (r: Result<(), ContractError>)
    ensures r.Ok? <==> && surface.fits && ComponentsFit(surface.components) && DispositionsFit(surface.dispositions)
                       && ChildrenKnown(surface.components) && !HasCycle(surface.components)
    ensures surface.fits && !ComponentsFit(surface.components) ==>
              exists k :: 0 <= k < |surface.components| && ComponentsFit(surface.components[..k])
                          && r.Err? && FaultAfter(surface.components[..k], surface.components[k]) == Some(r.error)
    ensures !surface.fits || (ComponentsFit(surface.components) && !DispositionsFit(surface.dispositions)) ==>
              r == Err(InvalidSurface)
    ensures r.Err? && surface.fits && ComponentsFit(surface.components) && DispositionsFit(surface.dispositions) ==>
              r == Err(InvalidSection)
  {
    if !surface.fits {
      return Err(InvalidSurface);
    }
    var checked := ValidateComponents(surface.components);
    if checked.Err? {
      return Err(checked.error);
    }
    var disposed := ValidateDispositions(surface.dispositions);
    if !disposed {
      return Err(InvalidSurface);
    }
    var valid := ValidateSections(surface.components, checked.value);
    return if valid then Ok(()) else Err(InvalidSection);
  }

  method SectionMap(components: seq<Component>) returns (sections: Sections)
    requires DistinctIds(components)
    ensures Maps(sections, components)
  {
    sections := map[];
    for i := 0 to |components|
      invariant forall x :: x in sections <==>
        exists j :: 0 <= j < i && components[j].Section? && components[j].id == x
      invariant forall j :: 0 <= j < i && components[j].Section? ==>
        sections[components[j].id] == components[j].children
    {
      if components[i].Section? {
        sections := sections[components[i].id := components[i].children];
      }
    }
    forall x, y ensures Child(sections, x, y) <==> ChildOf(components, x, y) {
      if ChildOf(components, x, y) {
        var c :| c in components && c.Section? && c.id == x && y in c.children;
        var j :| 0 <= j < |components| && components[j] == c;
      }
    }
  }
}
