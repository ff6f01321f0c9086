/** Action resolution: which of the current node's actions a submitted
    action name selects. Every action is scanned and each match overwrites
    the previous one, so the last match in declaration order wins. */
module ActionResolve {
  import opened Common
  import opened FlowModel

  /** An executor list that is present but empty: reading its first
      executor's name throws. */
  predicate HasEmptyExecutors(a: NodeAction)
  {
    a.action.executors == Some([])
  }

  predicate AnyEmptyExecutors(actions: seq<NodeAction>)
  {
    exists i | 0 <= i < |actions| :: HasEmptyExecutors(actions[i])
  }

  /** The submitted name selects the action: its first executor has that
      name, or its raw type tag equals the name exactly (case-sensitive). */
  predicate Matches(a: NodeAction, name: string)
  {
    (a.action.executors.Some? && |a.action.executors.value| > 0 && a.action.executors.value[0].name == name)
    || a.action.actionType == name
  }

  /** Action `k` matches and no later action does. */
  ghost predicate IsLastMatch(actions: seq<NodeAction>, name: string, k: int)
  {
    0 <= k < |actions| && Matches(actions[k], name)
    && forall j :: k < j < |actions| ==> !Matches(actions[j], name)
  }

  /** The last matching action, if any. */
  function LastMatch(actions: seq<NodeAction>, name: string): Option<NodeAction>
  {
    if actions == [] then None
    else if Matches(actions[|actions| - 1], name) then Some(actions[|actions| - 1])
    else LastMatch(actions[..|actions| - 1], name)
  }

  /** The outcome of scanning a node's actions. */
  datatype Resolution = Resolved(action: NodeAction) | NoMatch | ThrowsOnEmptyExecutors

  function Resolve(actions: seq<NodeAction>, name: string): Resolution
  {
    if AnyEmptyExecutors(actions) then ThrowsOnEmptyExecutors
    else match LastMatch(actions, name)
      case Some(a) => Resolved(a)
      case None => NoMatch
  }

  /** `LastMatch` finds nothing exactly when no action matches. */
  lemma {:induction false} LastMatchNone(actions: seq<NodeAction>, name: string)
    ensures LastMatch(actions, name).None? <==> forall i :: 0 <= i < |actions| ==> !Matches(actions[i], name)
  {
    if actions != [] {
      var n := |actions| - 1;
      var init := actions[..n];
      LastMatchNone(init, name);
      assert forall i :: 0 <= i < n ==> init[i] == actions[i];
    }
  }

  /** `LastMatch` finds the action at the last matching position. */
  lemma {:induction false} LastMatchIsLast(actions: seq<NodeAction>, name: string, k: int)
    requires IsLastMatch(actions, name, k)
    ensures LastMatch(actions, name) == Some(actions[k])
  {
    var n := |actions| - 1;
    if k < n {
      var init := actions[..n];
      assert !Matches(actions[n], name);
      assert IsLastMatch(init, name, k) by {
        forall j | k < j < n ensures !Matches(init[j], name) {
          assert init[j] == actions[j];
        }
      }
      LastMatchIsLast(init, name, k);
    }
  }

  /** When `LastMatch` finds an action, it sits at the last matching position. */
  lemma {:induction false} LastMatchFound(actions: seq<NodeAction>, name: string)
    requires LastMatch(actions, name).Some?
    ensures exists k :: IsLastMatch(actions, name, k) && LastMatch(actions, name) == Some(actions[k])
  {
    var n := |actions| - 1;
    if !Matches(actions[n], name) {
      var init := actions[..n];
      LastMatchFound(init, name);
      var k :| IsLastMatch(init, name, k) && LastMatch(init, name) == Some(init[k]);
      assert IsLastMatch(actions, name, k);
    } else {
      assert IsLastMatch(actions, name, n);
    }
  }

  /** The scan of `/submit`: a matching first executor name and a matching
      raw type each overwrite the action found so far. */
  method ResolveAction(actions: seq<NodeAction>, name: string) returns (r: Resolution)
    ensures r == Resolve(actions, name)
    ensures r.ThrowsOnEmptyExecutors? <==> exists i :: 0 <= i < |actions| && HasEmptyExecutors(actions[i])
    ensures r.NoMatch? <==> !AnyEmptyExecutors(actions) && forall i :: 0 <= i < |actions| ==> !Matches(actions[i], name)
    ensures r.Resolved? ==> exists k :: IsLastMatch(actions, name, k) && r.action == actions[k]
  {
    var triggeredAction: Option<NodeAction> := None;
    for i := 0 to |actions|
      invariant !AnyEmptyExecutors(actions[..i])
      invariant triggeredAction == LastMatch(actions[..i], name)
    {
      var a := actions[i];
      assert actions[..i + 1][..i] == actions[..i];
      if a.action.executors.Some? {
        if |a.action.executors.value| == 0 {
          assert HasEmptyExecutors(actions[i]);
          return ThrowsOnEmptyExecutors;
        }
        if a.action.executors.value[0].name == name {
          triggeredAction := Some(a);
        }
      }
      if a.action.actionType == name {
        triggeredAction := Some(a);
      }
      assert actions[..i + 1] == actions[..i] + [a];
    }
    assert actions[..|actions|] == actions;
    LastMatchNone(actions, name);
    r := match triggeredAction
      case Some(a) => Resolved(a)
      case None => NoMatch;
    if r.Resolved? {
      LastMatchFound(actions, name);
    }
  }
}
