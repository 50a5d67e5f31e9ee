/** What the steps of the exec-session protocol leave alone, by kind of step. */
module ExecFrames {
  import opened Basics
  import opened ExecSessions
  import Reg = TurnRegistry

  // ------------------------------------------------------------ commands keep their turn

  ghost predicate TurnsKept(s: State, s': State) {
    forall sid :: sid in s.commands ==> sid in s'.commands && s'.commands[sid].turn == s.commands[sid].turn
  }

  lemma BeginKeepsTurns(s: State, owner: Option<Turn>)
    requires Inv(s) && Enabled(s, Begin(owner))
    ensures TurnsKept(s, Apply(s, Begin(owner)))
    ensures Apply(s, Begin(owner)).commands.Keys == s.commands.Keys + {s.nextId}
  {
    assert Placed(s, s.nextId);
  }

  lemma EarlyStepKeepsTurns(s: State, a: Action)
    requires Enabled(s, a) && EarlyStep(a) && !a.Begin?
    ensures TurnsKept(s, Apply(s, a)) && Apply(s, a).commands.Keys == s.commands.Keys
  {
  }

  lemma SelectStepKeepsTurns(s: State, a: Action)
    requires Enabled(s, a) && SelectStep(a)
    ensures TurnsKept(s, Apply(s, a)) && Apply(s, a).commands.Keys == s.commands.Keys
  {
  }

  lemma LastStepKeepsTurns(s: State, a: Action)
    requires Enabled(s, a) && LastStep(a)
    ensures TurnsKept(s, Apply(s, a)) && Apply(s, a).commands.Keys == s.commands.Keys
  {
  }

  lemma SweepStepKeepsCommands(s: State, a: Action)
    requires Enabled(s, a) && SweepStep(a)
    ensures Apply(s, a).commands == s.commands
  {
  }

  lemma OutsideStepKeepsCommands(s: State, a: Action)
    requires Enabled(s, a) && OutsideStep(a)
    ensures Apply(s, a).commands == s.commands
  {
  }

  lemma StepKeepsTurns(s: State, a: Action)
    requires Inv(s) && Enabled(s, a)
    ensures TurnsKept(s, Apply(s, a))
    ensures Apply(s, a).commands.Keys == if a.Begin? then s.commands.Keys + {s.nextId} else s.commands.Keys
  {
    hide Inv, Enabled, Apply;
    if a.Begin? {
      BeginKeepsTurns(s, a.owner);
    } else if EarlyStep(a) {
      EarlyStepKeepsTurns(s, a);
    } else if SelectStep(a) {
      SelectStepKeepsTurns(s, a);
    } else if LastStep(a) {
      LastStepKeepsTurns(s, a);
    } else if SweepStep(a) {
      SweepStepKeepsCommands(s, a);
    } else {
      OutsideStepKeepsCommands(s, a);
    }
  }

  // ------------------------------------------------------------- registries and tokens

  predicate TouchesTurns(a: Action) {
    a.RegisterExec? || a.DropGuard? || a.Registry? || a.Cancel?
  }

  lemma EarlyStepKeepsRegistries(s: State, a: Action)
    requires Enabled(s, a) && EarlyStep(a) && !a.RegisterExec?
    ensures Apply(s, a).turns == s.turns
  {
  }

  lemma SelectStepKeepsRegistries(s: State, a: Action)
    requires Enabled(s, a) && SelectStep(a)
    ensures Apply(s, a).turns == s.turns
  {
  }

  lemma LastStepKeepsRegistries(s: State, a: Action)
    requires Enabled(s, a) && LastStep(a)
    ensures Apply(s, a).turns == s.turns
  {
  }

  lemma SweepStepKeepsRegistries(s: State, a: Action)
    requires Enabled(s, a) && SweepStep(a) && !TouchesTurns(a)
    ensures Apply(s, a).turns == s.turns
  {
  }

  lemma OutsideStepKeepsRegistries(s: State, a: Action)
    requires Enabled(s, a) && OutsideStep(a) && !TouchesTurns(a)
    ensures Apply(s, a).turns == s.turns
  {
  }

  lemma UntouchedTurns(s: State, a: Action)
    requires Enabled(s, a) && !TouchesTurns(a)
    ensures Apply(s, a).turns == s.turns
  {
    hide Enabled, Apply;
    if EarlyStep(a) {
      EarlyStepKeepsRegistries(s, a);
    } else if SelectStep(a) {
      SelectStepKeepsRegistries(s, a);
    } else if LastStep(a) {
      LastStepKeepsRegistries(s, a);
    } else if SweepStep(a) {
      SweepStepKeepsRegistries(s, a);
    } else {
      OutsideStepKeepsRegistries(s, a);
    }
  }

  /** A token, once set, stays set, and only `cancel` sets it. */
  ghost predicate TokensKept(s: State, s': State, a: Action) {
    && s'.turns.Keys == s.turns.Keys
    && forall t :: t in s.turns ==>
         (s'.turns[t].cancelled <==> s.turns[t].cancelled || (a.Cancel? && a.turn == t))
  }

  lemma TouchingStepKeepsTokens(s: State, a: Action)
    requires Enabled(s, a) && TouchesTurns(a)
    ensures TokensKept(s, Apply(s, a), a)
  {
  }

  lemma StepKeepsTokens(s: State, a: Action)
    requires Enabled(s, a)
    ensures TokensKept(s, Apply(s, a), a)
  {
    hide Enabled, Apply;
    if TouchesTurns(a) {
      TouchingStepKeepsTokens(s, a);
    } else {
      UntouchedTurns(s, a);
    }
  }

  lemma TouchingStepKeepsWaiters(s: State, a: Action, t: Turn)
    requires Enabled(s, a) && TouchesTurns(a) && t in Apply(s, a).turns && !(a.Registry? && a.turn == t)
    ensures t in s.turns && Apply(s, a).turns[t].registry.waiters == s.turns[t].registry.waiters
  {
  }

  lemma OnlyRegistryStepsMoveWaiters(s: State, a: Action, t: Turn)
    requires Enabled(s, a) && t in Apply(s, a).turns && !(a.Registry? && a.turn == t)
    ensures t in s.turns && Apply(s, a).turns[t].registry.waiters == s.turns[t].registry.waiters
  {
    if TouchesTurns(a) {
      TouchingStepKeepsWaiters(s, a, t);
    } else {
      UntouchedTurns(s, a);
    }
  }
}
