/**
 * What the stop conditions of calculate mean for the pass that ended the
 * loop and for the passes before it: each termination reason is reported
 * exactly when its check fires and no check before it in the pass did, and
 * a pass that went on saw a best fitness above the target and no stale
 * window.
 */
module EngineStopping {
  import opened JavaLang
  import opened Draws
  import opened Results
  import opened StopCriteria
  import opened EngineConfig
  import opened EngineState

  /**
   * The reason a pass stopped for, read back: each reason holds exactly
   * when its own check fires and every earlier check of the pass did not,
   * in the order generation step, interrupt, runtime, exception of the
   * step, target fitness, generation limit, staleness. An exception is
   * recorded exactly for the EXCEPTION reason.
   */
  lemma StoppedForMeaning(reason: TerminationReason, exception: Option<JavaLang.Exception>, p: LastPass, generations: int,
                          stops: set<int>, runtimes: seq<int>, s: Settings, current: int)
    requires StoppedFor(reason, exception, p, generations, stops, runtimes, s, current)
    ensures reason != TerminationReason.None
    ensures reason == TerminationReason.Exception <==> exception.Some?
    ensures var g, checked := p.generation, BeforeAt(p.generation, generations, stops, runtimes, s).None? && p.step.Some?;
            && (reason == GenerationStep <==> g == generations)
            && (reason == Interrupted <==> g != generations && g in stops)
            && (reason == Runtime <==> g != generations && g !in stops && IntAt(runtimes, g) > s.maxExecutionTime)
            && (reason == TerminationReason.Exception <==> checked && p.step.value.Thrown?)
            && (reason == Fitness <==> checked && p.step.value.Ok? && p.step.value.value <= s.targetFitness)
            && (reason == TerminationReason.Generation <==>
                  checked && p.step.value.Ok? && p.step.value.value > s.targetFitness && current == s.maxGenerationCount - 1)
            && (reason == Staleness <==>
                  && checked && p.step.value.Ok? && p.step.value.value > s.targetFitness && current != s.maxGenerationCount - 1
                  && p.window.Some? && p.window.value.Add(p.step.value.value).Full()
                  && p.window.value.Add(p.step.value.value).Peek() == p.step.value.value)
  {
    var g := p.generation;
    StopBeforeOrder(g, generations, g in stops, IntAt(runtimes, g), s.maxExecutionTime);
    if BeforeAt(g, generations, stops, runtimes, s).None? && p.step.value.Ok? {
      var best := p.step.value.value;
      StopAfterOrder(best, s.targetFitness, current, s.maxGenerationCount, p.window);
      if p.window.Some? && best > s.targetFitness && current != s.maxGenerationCount - 1 {
        var added := p.window.value.Add(best);
        assert added.values == Last(p.window.value.values + [best], p.window.value.capacity);
      }
    }
  }

  /**
   * Passes that went on had a best fitness above the target and ran below
   * the last generation, and the window took each of their best values in
   * turn.
   */
  lemma {:induction false} QuietMeaning(s: Settings, w: Option<Window>, start: int, bests: seq<real>)
    requires w.Some? ==> w.value.Valid()
    requires Quiet(s, w, start, bests)
    ensures forall g :: 0 <= g < |bests| ==> bests[g] > s.targetFitness && start + g != s.maxGenerationCount - 1
    ensures w.None? ==> Through(s, w, start, bests).None?
    ensures w.Some? ==> Through(s, w, start, bests) == Some(AddAll(w.value, bests))
    decreases |bests|
  {
    if |bests| > 0 {
      var n := |bests|;
      var front := bests[..n - 1];
      QuietMeaning(s, w, start, front);
      StopAfterOrder(bests[n - 1], s.targetFitness, start + n - 1, s.maxGenerationCount, Through(s, w, start, front));
      assert forall g :: 0 <= g < n - 1 ==> front[g] == bests[g];
    }
  }

  /**
   * No pass that went on found the window stale: after each of them the
   * window was not full, or its oldest value differed from that pass's best.
   */
  lemma QuietNeverStale(s: Settings, w: Window, start: int, bests: seq<real>)
    requires w.Valid() && Quiet(s, Some(w), start, bests)
    ensures forall g :: 0 <= g < |bests| ==>
              !(AddAll(w, bests[..g + 1]).Full() && AddAll(w, bests[..g + 1]).Peek() == bests[g])
  {
    forall g | 0 <= g < |bests|
      ensures !(AddAll(w, bests[..g + 1]).Full() && AddAll(w, bests[..g + 1]).Peek() == bests[g])
    {
      QuietPrefix(s, Some(w), start, bests, g + 1);
      LatestNotStale(s, w, start, bests[..g + 1]);
    }
  }

  /** Every prefix of quiet passes is quiet. */
  lemma {:induction false} QuietPrefix(s: Settings, w: Option<Window>, start: int, bests: seq<real>, k: int)
    requires w.Some? ==> w.value.Valid()
    requires Quiet(s, w, start, bests) && 0 <= k <= |bests|
    ensures Quiet(s, w, start, bests[..k])
    decreases |bests|
  {
    if k < |bests| {
      var front := bests[..|bests| - 1];
      QuietPrefix(s, w, start, front, k);
      assert front[..k] == bests[..k];
    } else {
      assert bests[..k] == bests;
    }
  }

  /** The last of quiet passes did not find the window stale. */
  lemma LatestNotStale(s: Settings, w: Window, start: int, bests: seq<real>)
    requires w.Valid() && |bests| > 0 && Quiet(s, Some(w), start, bests)
    ensures !(AddAll(w, bests).Full() && AddAll(w, bests).Peek() == bests[|bests| - 1])
  {
    var n := |bests|;
    var front := bests[..n - 1];
    QuietMeaning(s, Some(w), start, front);
    assert StopAfter(bests[n - 1], s.targetFitness, start + n - 1, s.maxGenerationCount, Some(AddAll(w, front))).reason.None?;
  }

  /**
   * One more pass that went on extends the history: the passes are still
   * quiet, and the window is the one the checks after the new pass left.
   */
  lemma WentOnExtends(s: Settings, w: Option<Window>, start: int, bests: seq<real>, p: LastPass, generations: int,
                      stops: set<int>, runtimes: seq<int>, recordGeneration: int)
    requires w.Some? ==> w.value.Valid()
    requires Quiet(s, w, start, bests) && p.window == Through(s, w, start, bests)
    requires WentOn(p, generations, stops, runtimes, s, start + |bests|, recordGeneration)
    ensures Quiet(s, w, start, bests + [p.step.value.value])
    ensures Through(s, w, start, bests + [p.step.value.value]) == WindowAfter(p, s, start + |bests|)
  {
    assert (bests + [p.step.value.value])[..|bests|] == bests;
  }

  /**
   * A pass ends one way only: a pass that went on stopped for no reason and
   * let no exception escape, and a pass that stopped let none escape. With
   * the three outcomes of a pass, each of them holds exactly when its
   * description does.
   */
  lemma PassEndsOneWay(p: LastPass, generations: int, stops: set<int>, runtimes: seq<int>, s: Settings, current: int,
                       recordGeneration: int, reason: TerminationReason, exception: Option<JavaLang.Exception>)
    ensures WentOn(p, generations, stops, runtimes, s, current, recordGeneration) ==>
              && PassFailure(p, generations, stops, runtimes, s, current, recordGeneration).None?
              && !StoppedFor(reason, exception, p, generations, stops, runtimes, s, current)
    ensures StoppedFor(reason, exception, p, generations, stops, runtimes, s, current) ==>
              PassFailure(p, generations, stops, runtimes, s, current, recordGeneration).None?
  {
  }
}
