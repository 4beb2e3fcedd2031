/** The action list editor of the workflow builder: adds, edits, removes and
    reorders the actions of a workflow before it is saved. */
module ActionList {
  import opened Common
  import opened Domain
  import Engine

  /** The action a new step starts with: a reply with no body yet. */
  const NewStep := SendReply("")

  /** `addAction`. */
  function AddAction(actions: seq<Action>): seq<Action> {
    actions + [NewStep]
  }

  /** A new step goes last and leaves the others as they were; removing it
      again gives back the list. */
  lemma AddActionExact(actions: seq<Action>)
    ensures var r := AddAction(actions);
      && |r| == |actions| + 1 && r[..|actions|] == actions && r[|actions|] == SendReply("")
      && WithoutIndex(r, |actions|) == actions
  {
    WithoutLastAppended(actions, NewStep);
  }

  /** The new step does nothing until it is given a body: the list with it
      has the same effect on the store as the list without it. */
  lemma {:induction false} AddedStepIsInert(db: Db, tenant: Id, convId: Id, actions: seq<Action>)
    requires convId in db.conversations
    ensures Engine.Effects(db, tenant, convId, AddAction(actions)) == Engine.Effects(db, tenant, convId, actions)
    decreases |actions|
  {
    if actions == [] {
      assert AddAction(actions) == [NewStep];
      assert Engine.ApplyAction(db, tenant, convId, NewStep) == db;
      assert Engine.Effects(db, tenant, convId, [NewStep]) == Engine.Effects(db, tenant, convId, []);
    } else {
      var db1 := Engine.ApplyAction(db, tenant, convId, actions[0]);
      assert AddAction(actions)[0] == actions[0];
      assert AddAction(actions)[1..] == AddAction(actions[1..]);
      AddedStepIsInert(db1, tenant, convId, actions[1..]);
    }
  }

  /** Nor does it change a run: the same store, the same error, whatever
      faults the store raises. */
  lemma {:induction false} AddedStepRunsInert(db: Db, tenant: Id, convId: Id, wf: Id, actions: seq<Action>,
                                              faults: map<(Id, nat), string>, i: nat)
    ensures Engine.Run(db, tenant, convId, wf, AddAction(actions), faults, i)
         == Engine.Run(db, tenant, convId, wf, actions, faults, i)
    decreases |actions| - i
  {
    var ext := AddAction(actions);
    if i >= |actions| {
      if i == |actions| {
        assert ext[i] == NewStep;
        assert !Engine.Writes(ext[i]);
        assert Engine.ApplyAction(db, tenant, convId, ext[i]) == db;
        assert Engine.Run(db, tenant, convId, wf, ext, faults, i + 1) == Engine.RunResult(db, None);
      }
    } else {
      assert ext[i] == actions[i];
      if !Engine.Faulty(faults, wf, actions, i) && !(Engine.Writes(actions[i]) && convId !in db.conversations) {
        var db1 := Engine.ApplyAction(db, tenant, convId, actions[i]);
        AddedStepRunsInert(db1, tenant, convId, wf, actions, faults, i + 1);
      }
    }
  }

  /** `updateAction`: the copy with the action at `index` replaced. */
  method UpdateAction(actions: seq<Action>, index: nat, a: Action) returns (r: seq<Action>)
    requires index < |actions|
    ensures |r| == |actions| && r[index] == a
    ensures forall j :: 0 <= j < |actions| && j != index ==> r[j] == actions[j]
  {
    var updated := new Action[|actions|](j requires 0 <= j < |actions| => actions[j]);
    updated[index] := a;
    r := updated[..];
  }

  /** `removeAction`. */
  function RemoveAction(actions: seq<Action>, index: int): seq<Action> {
    WithoutIndex(actions, index)
  }

  /** `s` with the elements at `i` and `j` exchanged. */
  function Swap<T>(s: seq<T>, i: nat, j: nat): seq<T>
    requires i < |s| && j < |s|
  {
    s[i := s[j]][j := s[i]]
  }

  /** A swap reorders and nothing more, and undoes itself. */
  lemma SwapPermutes<T>(s: seq<T>, i: nat, j: nat)
    requires i < |s| && j < |s|
    ensures multiset(Swap(s, i, j)) == multiset(s)
    ensures Swap(Swap(s, i, j), i, j) == s
    ensures forall k :: 0 <= k < |s| && k != i && k != j ==> Swap(s, i, j)[k] == s[k]
  {
    SwapMultiset(s, i, j);
  }

  /** The multiset half of `SwapPermutes`. */
  lemma SwapMultiset<T>(s: seq<T>, i: nat, j: nat)
    requires i < |s| && j < |s|
    ensures multiset(Swap(s, i, j)) == multiset(s)
  {
    var t := s[i := s[j]];
    UpdateMultiset(s, i, s[j]);
    UpdateMultiset(t, j, s[i]);
    assert t[j] == s[j];
  }

  lemma UpdateMultiset<T>(s: seq<T>, k: nat, v: T)
    requires k < |s|
    ensures multiset(s[k := v]) == multiset(s) - multiset{s[k]} + multiset{v}
  {
  }

  /** `moveUp(index)`: the step trades places with the one before it; the
      first step stays. */
  function MovedUp(actions: seq<Action>, index: nat): seq<Action>
    requires index < |actions|
  {
    if index == 0 then actions else Swap(actions, index - 1, index)
  }

  /** `moveDown(index)`: the step trades places with the one after it; the
      last step stays. */
  function MovedDown(actions: seq<Action>, index: nat): seq<Action>
    requires index < |actions|
  {
    if index == |actions| - 1 then actions else Swap(actions, index, index + 1)
  }

  /** Moving keeps the same steps, changes at most the two that trade
      places, and a step moved up comes back down to where it was. */
  lemma MovesPermute(actions: seq<Action>, index: nat)
    requires index < |actions|
    ensures multiset(MovedUp(actions, index)) == multiset(actions)
    ensures multiset(MovedDown(actions, index)) == multiset(actions)
    ensures index == 0 ==> MovedUp(actions, index) == actions
    ensures index == |actions| - 1 ==> MovedDown(actions, index) == actions
    ensures index > 0 ==> MovedDown(MovedUp(actions, index), index - 1) == actions
    ensures index < |actions| - 1 ==> MovedUp(MovedDown(actions, index), index + 1) == actions
  {
    MoveUpPermutes(actions, index);
    MoveDownPermutes(actions, index);
  }

  lemma MoveUpPermutes(actions: seq<Action>, index: nat)
    requires index < |actions|
    ensures multiset(MovedUp(actions, index)) == multiset(actions)
    ensures index > 0 ==> MovedDown(MovedUp(actions, index), index - 1) == actions
  {
    if index > 0 {
      var u := Swap(actions, index - 1, index);
      SwapPermutes(actions, index - 1, index);
      assert |u| == |actions| && index - 1 != |u| - 1;
      assert MovedDown(u, index - 1) == Swap(u, index - 1, index);
    }
  }

  lemma MoveDownPermutes(actions: seq<Action>, index: nat)
    requires index < |actions|
    ensures multiset(MovedDown(actions, index)) == multiset(actions)
    ensures index < |actions| - 1 ==> MovedUp(MovedDown(actions, index), index + 1) == actions
  {
    if index < |actions| - 1 {
      var d := Swap(actions, index, index + 1);
      SwapPermutes(actions, index, index + 1);
      assert |d| == |actions| && index + 1 != 0;
      assert MovedUp(d, index + 1) == Swap(d, index, index + 1);
    }
  }

  /** `moveUp`, on a copy of the list. */
  method MoveUp(actions: seq<Action>, index: nat) returns (r: seq<Action>)
    requires index < |actions|
    ensures r == MovedUp(actions, index)
  {
    if index == 0 {
      return actions;
    }
    var updated := new Action[|actions|](j requires 0 <= j < |actions| => actions[j]);
    updated[index - 1], updated[index] := updated[index], updated[index - 1];
    r := updated[..];
  }

  /** `moveDown`, on a copy of the list. */
  method MoveDown(actions: seq<Action>, index: nat) returns (r: seq<Action>)
    requires index < |actions|
    ensures r == MovedDown(actions, index)
  {
    if index == |actions| - 1 {
      return actions;
    }
    var updated := new Action[|actions|](j requires 0 <= j < |actions| => actions[j]);
    updated[index], updated[index + 1] := updated[index + 1], updated[index];
    r := updated[..];
  }
}
