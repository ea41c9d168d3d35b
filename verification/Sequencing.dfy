/** The sequencing of desired resources: functions/common/base/fn.go and group.go. */
module Sequencing {
  import opened Wrappers
  import opened Patterns
  import opened TagInjection

  datatype Ready = ReadyUnspecified | ReadyTrue | ReadyFalse

  datatype Sequence = Sequence(regex: bool, steps: seq<seq<string>>)

  /** The observed resources, each with the readiness the function computes for it. */
  type Observed = map<string, Ready>

  /** The generated objects; a generator may store no object under a key. */
  type Generated = map<string, Option<Object>>

  datatype DesiredComposed = DesiredComposed(resource: Object, ready: Ready)

  // ---- Closed form ----

  predicate InStep(sequence: Sequence, i: int, name: string)
    requires 0 <= i < |sequence.steps|
  {
    if sequence.regex then exists pattern :: pattern in sequence.steps[i] && Matches(pattern, name)
    else name in sequence.steps[i]
  }

  predicate Sequenced(sequence: Sequence, name: string) {
    exists i :: 0 <= i < |sequence.steps| && InStep(sequence, i, name)
  }

  /** Over all strings, no two steps share a member. */
  ghost predicate StepsAreDisjoint(sequence: Sequence) {
    forall i, j, s | 0 <= i < |sequence.steps| && 0 <= j < |sequence.steps|
      && InStep(sequence, i, s) && InStep(sequence, j, s) :: i == j
  }

  predicate StepReady(sequence: Sequence, i: int, generated: set<string>, observed: Observed)
    requires 0 <= i < |sequence.steps|
  {
    forall name :: name in generated && InStep(sequence, i, name) ==> name in observed && observed[name] == ReadyTrue
  }

  /** Only the immediately preceding step is looked at. */
  predicate GateOpen(sequence: Sequence, i: int, generated: set<string>, observed: Observed)
    requires 0 <= i <= |sequence.steps|
  {
    i == 0 || StepReady(sequence, i - 1, generated, observed)
  }

  /** A generated name is admitted iff it is in no step, already observed, or in a step whose predecessor's
      generated resources are all observed and ready. */
  predicate Admitted(sequence: Sequence, generated: set<string>, observed: Observed, name: string) {
    && name in generated
    && (|| name in observed
        || !Sequenced(sequence, name)
        || exists i :: 0 <= i < |sequence.steps| && InStep(sequence, i, name) && GateOpen(sequence, i, generated, observed))
  }

  function AdmittedNames(sequence: Sequence, generated: set<string>, observed: Observed): set<string> {
    set name | name in generated && Admitted(sequence, generated, observed, name)
  }

  /** What adding one generated resource stores, or the error that ends the round. */
  function Entry(generated: Generated, observed: Observed, collected: ResourceTags, workspace: string, name: string)
    : Result<DesiredComposed, InjectionError>
    requires name in generated
  {
    match generated[name]
    case None => Err(NilObject)
    case Some(original) =>
      match Injected(original, collected, workspace)
      case Err(e) => Err(e)
      case Ok(injected) => Ok(DesiredComposed(injected, if name in observed then observed[name] else ReadyUnspecified))
  }

  function Entries(generated: Generated, observed: Observed, collected: ResourceTags, workspace: string,
                   names: set<string>): map<string, DesiredComposed>
    requires names <= generated.Keys
  {
    map name | name in names && Entry(generated, observed, collected, workspace, name).Ok? ::
      Entry(generated, observed, collected, workspace, name).value
  }

  predicate AllBuild(generated: Generated, observed: Observed, collected: ResourceTags, workspace: string,
                     names: set<string>)
    requires names <= generated.Keys
  {
    forall name :: name in names ==> Entry(generated, observed, collected, workspace, name).Ok?
  }

  // ---- The loops ----

  function NonEmptySteps(stepObjects: seq<seq<string>>): seq<seq<string>> {
    if stepObjects == [] then []
    else NonEmptySteps(stepObjects[..|stepObjects| - 1])
         + (if stepObjects[|stepObjects| - 1] == [] then [] else [stepObjects[|stepObjects| - 1]])
  }

  /** Groups without objects are dropped, so they do not occupy a step. */
  method NewSequence(regex: bool, stepObjects: seq<seq<string>>) returns (sequence: Sequence)
    ensures sequence == Sequence(regex, NonEmptySteps(stepObjects))
    ensures forall i :: 0 <= i < |sequence.steps| ==> sequence.steps[i] != []
  {
    var steps: seq<seq<string>> := [];
    for i := 0 to |stepObjects|
      invariant steps == NonEmptySteps(stepObjects[..i])
      invariant forall j :: 0 <= j < |steps| ==> steps[j] != []
    {
      assert stepObjects[..i + 1][..i] == stepObjects[..i];
      if |stepObjects[i]| > 0 {
        steps := steps + [stepObjects[i]];
      }
    }
    assert stepObjects[..|stepObjects|] == stepObjects;
    sequence := Sequence(regex, steps);
  }

  /** The names of a step: the listed ones, or the generated keys that match a listed pattern. */
  method GetStepResourceNames(sequence: Sequence, i: int, generated: set<string>) returns (names: set<string>)
    requires 0 <= i < |sequence.steps|
    ensures forall name :: name in generated ==> (name in names <==> InStep(sequence, i, name))
    ensures sequence.regex ==> names <= generated
  {
    var objects := sequence.steps[i];
    names := {};
    for k := 0 to |objects|
      invariant sequence.regex ==> forall name ::
        name in names <==> name in generated && exists j :: 0 <= j < k && Matches(objects[j], name)
      invariant !sequence.regex ==> forall name :: name in names <==> name in objects[..k]
    {
      var pattern := objects[k];
      if !sequence.regex {
        names := names + {pattern};
      } else {
        ghost var before := names;
        var keys := generated;
        while keys != {}
          invariant keys <= generated
          invariant forall name ::
            name in names <==> name in before || (name in generated && name !in keys && Matches(pattern, name))
          decreases keys
        {
          var key :| key in keys;
          keys := keys - {key};
          if Matches(pattern, key) {
            names := names + {key};
          }
        }
      }
    }
    assert objects[..|objects|] == objects;
  }

  predicate StepAdmits(sequence: Sequence, i: int, generated: set<string>, observed: Observed, name: string)
    requires 0 <= i < |sequence.steps|
  {
    InStep(sequence, i, name) && (name in observed || GateOpen(sequence, i, generated, observed))
  }

  function AdmittedBelow(sequence: Sequence, i: int, generated: set<string>, observed: Observed): set<string>
    requires 0 <= i <= |sequence.steps|
  {
    set name | name in generated && exists j :: 0 <= j < i && StepAdmits(sequence, j, generated, observed, name)
  }

  lemma AdmittedByAStep(sequence: Sequence, generated: set<string>, observed: Observed, name: string)
    requires name in generated && Sequenced(sequence, name)
    ensures Admitted(sequence, generated, observed, name)
       <==> name in AdmittedBelow(sequence, |sequence.steps|, generated, observed)
  {
    var i :| 0 <= i < |sequence.steps| && InStep(sequence, i, name);
    if name in observed {
      assert StepAdmits(sequence, i, generated, observed, name);
    } else if Admitted(sequence, generated, observed, name) {
      var j :| 0 <= j < |sequence.steps| && InStep(sequence, j, name) && GateOpen(sequence, j, generated, observed);
      assert StepAdmits(sequence, j, generated, observed, name);
    }
  }

  lemma AdmittedSplits(sequence: Sequence, generated: set<string>, observed: Observed)
    ensures AdmittedNames(sequence, generated, observed)
         == AdmittedBelow(sequence, |sequence.steps|, generated, observed)
            + (generated - (set name | name in generated && Sequenced(sequence, name)))
  {
    forall name | name in generated && Sequenced(sequence, name)
      ensures name in AdmittedNames(sequence, generated, observed)
         <==> name in AdmittedBelow(sequence, |sequence.steps|, generated, observed)
    {
      AdmittedByAStep(sequence, generated, observed, name);
    }
    forall name | name in AdmittedBelow(sequence, |sequence.steps|, generated, observed)
      ensures Sequenced(sequence, name)
    {
      var j :| 0 <= j < |sequence.steps| && StepAdmits(sequence, j, generated, observed, name);
    }
  }

  lemma EntryOfInjected(generated: Generated, observed: Observed, collected: ResourceTags, workspace: string,
                        name: string)
    requires name in generated && generated[name].Some?
    ensures Injected(generated[name].value, collected, workspace).Ok? ==>
      Entry(generated, observed, collected, workspace, name)
      == Ok(DesiredComposed(Injected(generated[name].value, collected, workspace).value,
                            if name in observed then observed[name] else ReadyUnspecified))
    ensures Injected(generated[name].value, collected, workspace).Err? ==>
      Entry(generated, observed, collected, workspace, name)
      == Err(Injected(generated[name].value, collected, workspace).error)
  {
    hide Injected;
  }

  lemma EntriesPlus(generated: Generated, observed: Observed, collected: ResourceTags, workspace: string,
                    start: map<string, DesiredComposed>, names: set<string>, name: string)
    requires names <= generated.Keys && name in generated
    requires AllBuild(generated, observed, collected, workspace, names)
    requires Entry(generated, observed, collected, workspace, name).Ok?
    ensures AllBuild(generated, observed, collected, workspace, names + {name})
    ensures (start + Entries(generated, observed, collected, workspace, names))
              [name := Entry(generated, observed, collected, workspace, name).value]
         == start + Entries(generated, observed, collected, workspace, names + {name})
  {
    hide Entry;
  }

  lemma EntriesOfNone(generated: Generated, observed: Observed, collected: ResourceTags, workspace: string,
                      start: map<string, DesiredComposed>)
    ensures AllBuild(generated, observed, collected, workspace, {})
    ensures start == start + Entries(generated, observed, collected, workspace, {})
  {}

  lemma EntriesOfUnion(generated: Generated, observed: Observed, collected: ResourceTags, workspace: string,
                       start: map<string, DesiredComposed>, a: set<string>, b: set<string>)
    requires a <= generated.Keys && b <= generated.Keys
    ensures AllBuild(generated, observed, collected, workspace, a + b)
       <==> AllBuild(generated, observed, collected, workspace, a) && AllBuild(generated, observed, collected, workspace, b)
    ensures start + Entries(generated, observed, collected, workspace, a + b)
         == start + Entries(generated, observed, collected, workspace, a)
            + Entries(generated, observed, collected, workspace, b)
  {
    hide Entry;
  }

  lemma NotAllBuild(generated: Generated, observed: Observed, collected: ResourceTags, workspace: string,
                    names: set<string>, name: string)
    requires name in names && names <= generated.Keys
    requires Entry(generated, observed, collected, workspace, name).Err?
    ensures !AllBuild(generated, observed, collected, workspace, names)
  {}

  lemma AllBuildBelow(generated: Generated, observed: Observed, collected: ResourceTags, workspace: string,
                      a: set<string>, b: set<string>)
    requires a <= b <= generated.Keys && AllBuild(generated, observed, collected, workspace, b)
    ensures AllBuild(generated, observed, collected, workspace, a)
  {}

  /** What the inner loop adds for step `i`, given the flag of the step before. */
  function StepAdds(sequence: Sequence, i: int, generated: set<string>, observed: Observed, open: bool): set<string>
    requires 0 <= i < |sequence.steps|
  {
    set name | name in generated && InStep(sequence, i, name) && (name in observed || open)
  }

  lemma BelowPlusStep(sequence: Sequence, i: int, generated: set<string>, observed: Observed)
    requires 0 <= i < |sequence.steps|
    ensures AdmittedBelow(sequence, i + 1, generated, observed)
         == AdmittedBelow(sequence, i, generated, observed)
            + StepAdds(sequence, i, generated, observed, GateOpen(sequence, i, generated, observed))
  {
    forall name | name in StepAdds(sequence, i, generated, observed, GateOpen(sequence, i, generated, observed))
      ensures name in AdmittedBelow(sequence, i + 1, generated, observed)
    {
      assert StepAdmits(sequence, i, generated, observed, name);
    }
  }

  lemma BelowGrows(sequence: Sequence, i: int, generated: set<string>, observed: Observed)
    requires 0 <= i <= |sequence.steps|
    ensures AdmittedBelow(sequence, i, generated, observed)
         <= AdmittedBelow(sequence, |sequence.steps|, generated, observed)
  {}

  /** Holds the `desired` map that the loops of a round write. */
  class Composer {
    const workspace: string
    var desired: map<string, DesiredComposed>

    constructor (workspace: string, desired: map<string, DesiredComposed>)
      ensures this.workspace == workspace && this.desired == desired
    {
      this.workspace, this.desired := workspace, desired;
    }

    method AddDesiredResource(generated: Generated, observed: Observed, collected: ResourceTags, name: string)
      returns (error: Option<InjectionError>)
      requires name in generated
      modifies this
      ensures var entry := Entry(generated, observed, collected, workspace, name);
        && (error.None? <==> entry.Ok?)
        && (error.None? ==> desired == old(desired)[name := entry.value])
        && (error.Some? ==> entry == Err(error.value) && desired == old(desired))
    {
      var ready := if name in observed then observed[name] else ReadyUnspecified;
      if generated[name].None? {
        return Some(NilObject);
      }
      var original := generated[name].value;
      var unstructured := new Unstructured(original);
      error := unstructured.InjectZone(collected, workspace);
      EntryOfInjected(generated, observed, collected, workspace, name);
      hide Injected;
      hide Entry;
      hide InjectedLabels;
      hide InjectedTags;
      if error.None? {
        InjectedOk(original, collected, workspace, unstructured.labels, unstructured.tagField);
        var injected := Object(unstructured.labels, unstructured.tagField, unstructured.body);
        desired := desired[name := DesiredComposed(injected, ready)];
      } else {
        InjectedErr(original, collected, workspace);
      }
    }

    /** The inner loop: one step, in any order of its names. */
    method AddStep(sequence: Sequence, i: int, generated: Generated, observed: Observed, collected: ResourceTags,
                   previousStepIsReady: bool)
      returns (error: Option<InjectionError>, stepNames: set<string>, currentStepAllReady: bool)
      requires 0 <= i < |sequence.steps|
      modifies this
      ensures var added := StepAdds(sequence, i, generated.Keys, observed, previousStepIsReady);
        && (error.None? <==> AllBuild(generated, observed, collected, workspace, added))
        && (error.None? ==>
             && stepNames == (set name | name in generated && InStep(sequence, i, name))
             && currentStepAllReady == StepReady(sequence, i, generated.Keys, observed)
             && desired == old(desired) + Entries(generated, observed, collected, workspace, added))
    {
      hide AllBuild;
      hide Entries;
      var names := GetStepResourceNames(sequence, i, generated.Keys);
      ghost var start := desired;
      ghost var added: set<string> := {};
      EntriesOfNone(generated, observed, collected, workspace, start);
      error, stepNames, currentStepAllReady := None, {}, true;
      var todo := names;
      while todo != {}
        invariant todo <= names && error.None?
        invariant stepNames == set name | name in generated && name in names - todo
        invariant added == set name | name in stepNames && (name in observed || previousStepIsReady)
        invariant AllBuild(generated, observed, collected, workspace, added)
        invariant desired == start + Entries(generated, observed, collected, workspace, added)
        invariant currentStepAllReady <==>
          forall name :: name in stepNames ==> name in observed && observed[name] == ReadyTrue
        decreases todo
      {
        var name :| name in todo;
        todo := todo - {name};
        if name !in generated {
          continue;
        }
        stepNames := stepNames + {name};
        if name !in observed && !previousStepIsReady {
          currentStepAllReady := false;
          continue;
        }
        error := AddDesiredResource(generated, observed, collected, name);
        if error.Some? {
          NotAllBuild(generated, observed, collected, workspace,
                      StepAdds(sequence, i, generated.Keys, observed, previousStepIsReady), name);
          return;
        }
        EntriesPlus(generated, observed, collected, workspace, start, added, name);
        added := added + {name};
        if desired[name].ready != ReadyTrue {
          currentStepAllReady := false;
        }
      }
      assert added == StepAdds(sequence, i, generated.Keys, observed, previousStepIsReady);
    }

    method AddDesiredSequenceResources(sequence: Sequence, generated: Generated, observed: Observed,
                                       collected: ResourceTags)
      returns (error: Option<InjectionError>, processed: set<string>)
      modifies this
      ensures var admitted := AdmittedBelow(sequence, |sequence.steps|, generated.Keys, observed);
        && (error.None? <==> AllBuild(generated, observed, collected, workspace, admitted))
        && (error.None? ==>
             && processed == (set name | name in generated && Sequenced(sequence, name))
             && desired == old(desired) + Entries(generated, observed, collected, workspace, admitted))
    {
      hide AllBuild;
      hide Entries;
      ghost var keys := generated.Keys;
      ghost var all := AdmittedBelow(sequence, |sequence.steps|, keys, observed);
      ghost var start := desired;
      error, processed := None, {};
      assert AdmittedBelow(sequence, 0, keys, observed) == {};
      EntriesOfNone(generated, observed, collected, workspace, start);
      var previousStepIsReady := true;
      for i := 0 to |sequence.steps|
        invariant error.None?
        invariant previousStepIsReady == GateOpen(sequence, i, keys, observed)
        invariant processed == set name | name in generated && exists j :: 0 <= j < i && InStep(sequence, j, name)
        invariant AllBuild(generated, observed, collected, workspace, AdmittedBelow(sequence, i, keys, observed))
        invariant desired == start
          + Entries(generated, observed, collected, workspace, AdmittedBelow(sequence, i, keys, observed))
      {
        ghost var below := AdmittedBelow(sequence, i, keys, observed);
        ghost var step := StepAdds(sequence, i, keys, observed, previousStepIsReady);
        BelowPlusStep(sequence, i, keys, observed);
        EntriesOfUnion(generated, observed, collected, workspace, start, below, step);
        var stepNames;
        error, stepNames, previousStepIsReady :=
          AddStep(sequence, i, generated, observed, collected, previousStepIsReady);
        if error.Some? {
          BelowGrows(sequence, i + 1, keys, observed);
          if AllBuild(generated, observed, collected, workspace, all) {
            AllBuildBelow(generated, observed, collected, workspace, below + step, all);
          }
          return;
        }
        processed := processed + stepNames;
      }
    }

    /** The whole round, for every order in which the maps are iterated. */
    method AddDesiredComposedResources(sequence: Sequence, generated: Generated, observed: Observed,
                                       collected: ResourceTags)
      returns (error: Option<InjectionError>)
      modifies this
      ensures var admitted := AdmittedNames(sequence, generated.Keys, observed);
        && (error.None? <==> AllBuild(generated, observed, collected, workspace, admitted))
        && (error.None? ==> desired == old(desired) + Entries(generated, observed, collected, workspace, admitted))
    {
      ghost var keys := generated.Keys;
      ghost var start := desired;
      ghost var bySteps := AdmittedBelow(sequence, |sequence.steps|, keys, observed);
      AdmittedSplits(sequence, keys, observed);
      ghost var admitted := AdmittedNames(sequence, keys, observed);
      hide AllBuild;
      hide Entries;
      hide AdmittedBelow;
      hide AdmittedNames;
      var processed;
      error, processed := AddDesiredSequenceResources(sequence, generated, observed, collected);
      if error.Some? {
        if AllBuild(generated, observed, collected, workspace, admitted) {
          AllBuildBelow(generated, observed, collected, workspace, bySteps, admitted);
        }
        return;
      }
      ghost var added := bySteps;
      var todo := generated.Keys;
      while todo != {}
        invariant todo <= keys
        invariant added == bySteps + (keys - processed - todo)
        invariant added <= keys && AllBuild(generated, observed, collected, workspace, added)
        invariant desired == start + Entries(generated, observed, collected, workspace, added)
        decreases todo
      {
        var name :| name in todo;
        todo := todo - {name};
        if name in processed {
          continue;
        }
        error := AddDesiredResource(generated, observed, collected, name);
        if error.Some? {
          NotAllBuild(generated, observed, collected, workspace, admitted, name);
          return;
        }
        EntriesPlus(generated, observed, collected, workspace, start, added, name);
        added := added + {name};
      }
      assert added == admitted;
      error := None;
    }
  }

  /** The sequencing never drops an observed resource that the generator still emits. */
  lemma ObservedIsKept(sequence: Sequence, generated: set<string>, observed: Observed)
    ensures generated * observed.Keys <= AdmittedNames(sequence, generated, observed)
  {}
}
