/** The notifier's configuration validation and what the running program gets from it. */
module Configuration {
  import opened Domain
  import Debounce
  import EngineModel
  import Race
  import SessionModel
  import Timing

  /** `strings.ToLower` as far as the accepted words can tell: two code points outside
      ASCII lower-case into it, the Kelvin sign and the dotted capital I, and neither
      letter occurs in a word. */
  function Lower(s: string): string {
    seq(|s|, i requires 0 <= i < |s| => if 'A' <= s[i] <= 'Z' then s[i] - 'A' + 'a' else s[i])
  }

  /** Capital letters become the small ones, 32 places on; everything else stays. */
  lemma LowerLetters(s: string)
    ensures |Lower(s)| == |s|
    ensures forall i :: 0 <= i < |s| ==>
      Lower(s)[i] as int == s[i] as int + if 65 <= s[i] as int <= 90 then 32 else 0
  {
  }

  predicate SameWord(s: string, word: string) {
    Lower(s) == word
  }

  datatype Problem =
    | IdleWindowTooLong
    | MaxWaitTooLong
    | InvalidLogFormat
    | InvalidDuplicateAction
    | MissingLeaderElectionNamespace
    | LeaseDurationTooShort
    | RenewDeadlineTooShort
    | MissingPodNamespace
    | InvalidLeaderProxyTimeout
    | PprofAddrConflict
    | InvalidBackendRegistryTTL
    | InvalidRemoteBackendTimeout

  /** The place of a problem in the order `Validate` looks for them. */
  function Rank(p: Problem): nat {
    match p
    case IdleWindowTooLong => 0
    case MaxWaitTooLong => 1
    case InvalidLogFormat => 2
    case InvalidDuplicateAction => 3
    case MissingLeaderElectionNamespace => 4
    case LeaseDurationTooShort => 5
    case RenewDeadlineTooShort => 6
    case MissingPodNamespace => 7
    case InvalidLeaderProxyTimeout => 8
    case PprofAddrConflict => 9
    case InvalidBackendRegistryTTL => 10
    case InvalidRemoteBackendTimeout => 11
  }

  /** The settings `Validate` reads; durations in nanoseconds. */
  datatype Config = Config(
    listenAddr: string,
    idleWindow: int,
    maxWait: int,
    combineTriggers: bool,
    sessionTTL: int,
    duplicateAction: string,
    backendRegistryTTL: int,
    remoteBackendRequestTimeout: int,
    logFormat: string,
    leaderElectionEnabled: bool,
    leaderElectionNamespace: string,
    leaseDuration: int,
    renewDeadline: int,
    retryPeriod: int,
    podNamespace: string,
    leaderProxyRequestTimeout: int,
    pprofEnabled: bool,
    pprofAddr: string)
  {
    /** What each problem means for the settings. */
    predicate Has(p: Problem) {
      match p
      case IdleWindowTooLong => maxWait <= idleWindow
      case MaxWaitTooLong => sessionTTL <= maxWait
      case InvalidLogFormat => !SameWord(logFormat, "json") && !SameWord(logFormat, "text")
      case InvalidDuplicateAction => !SameWord(duplicateAction, "drop") && !SameWord(duplicateAction, "thread")
      case MissingLeaderElectionNamespace => leaderElectionEnabled && leaderElectionNamespace == ""
      case LeaseDurationTooShort => leaderElectionEnabled && leaseDuration <= renewDeadline
      case RenewDeadlineTooShort => leaderElectionEnabled && renewDeadline <= retryPeriod
      case MissingPodNamespace => leaderElectionEnabled && podNamespace == ""
      case InvalidLeaderProxyTimeout => leaderProxyRequestTimeout <= 0
      case PprofAddrConflict => pprofEnabled && pprofAddr == listenAddr
      case InvalidBackendRegistryTTL => backendRegistryTTL <= 0
      case InvalidRemoteBackendTimeout => remoteBackendRequestTimeout <= 0
    }

    /** What the program may rely on. */
    predicate Valid() {
      && idleWindow < maxWait < sessionTTL
      && (SameWord(logFormat, "json") || SameWord(logFormat, "text"))
      && (SameWord(duplicateAction, "drop") || SameWord(duplicateAction, "thread"))
      && (leaderElectionEnabled ==>
            && leaderElectionNamespace != "" && podNamespace != ""
            && retryPeriod < renewDeadline < leaseDuration)
      && leaderProxyRequestTimeout > 0 && backendRegistryTTL > 0 && remoteBackendRequestTimeout > 0
      && (pprofEnabled ==> pprofAddr != listenAddr)
    }

    /** That is exactly that there is no problem. */
    lemma ValidIff()
      ensures Valid() <==> forall p :: !Has(p)
    {
      hide SameWord;
      if forall p :: !Has(p) {
        assert !Has(IdleWindowTooLong) && !Has(MaxWaitTooLong) && !Has(InvalidLogFormat);
        assert !Has(InvalidDuplicateAction);
        assert !Has(MissingLeaderElectionNamespace) && !Has(LeaseDurationTooShort) && !Has(RenewDeadlineTooShort);
        assert !Has(MissingPodNamespace) && !Has(InvalidLeaderProxyTimeout) && !Has(PprofAddrConflict);
        assert !Has(InvalidBackendRegistryTTL) && !Has(InvalidRemoteBackendTimeout);
      }
    }

    /** The first `k` checks are behind: exactly the problems they look for are listed,
        in their order. */
    ghost predicate Checked(errs: seq<Problem>, k: nat) {
      && (forall p :: p in errs <==> Rank(p) < k && Has(p))
      && (forall i, j :: 0 <= i < j < |errs| ==> Rank(errs[i]) < Rank(errs[j]))
    }

    /** `Validate` collects every problem the configuration has, in the order of the
        checks. */
    method Validate() returns (errs: seq<Problem>)
      ensures forall p :: p in errs <==> Has(p)
      ensures forall i, j :: 0 <= i < j < |errs| ==> Rank(errs[i]) < Rank(errs[j])
      ensures errs == [] <==> Valid()
    {
      hide Lower, Checked, Valid;
      errs := [];
      StartChecked();
      errs := Report(errs, IdleWindowTooLong, idleWindow >= maxWait);
      errs := Report(errs, MaxWaitTooLong, maxWait >= sessionTTL);
      errs := Report(errs, InvalidLogFormat, Lower(logFormat) != "json" && Lower(logFormat) != "text");
      errs := Report(errs, InvalidDuplicateAction,
                     Lower(duplicateAction) != "drop" && Lower(duplicateAction) != "thread");
      SkipElection(errs);
      if leaderElectionEnabled {
        errs := Report(errs, MissingLeaderElectionNamespace, leaderElectionNamespace == "");
        errs := Report(errs, LeaseDurationTooShort, leaseDuration <= renewDeadline);
        errs := Report(errs, RenewDeadlineTooShort, renewDeadline <= retryPeriod);
        errs := Report(errs, MissingPodNamespace, podNamespace == "");
      }
      errs := Report(errs, InvalidLeaderProxyTimeout, leaderProxyRequestTimeout <= 0);
      errs := Report(errs, PprofAddrConflict, pprofEnabled && pprofAddr == listenAddr);
      errs := Report(errs, InvalidBackendRegistryTTL, backendRegistryTTL <= 0);
      errs := Report(errs, InvalidRemoteBackendTimeout, remoteBackendRequestTimeout <= 0);
      AllChecked(errs);
    }

    /** One guarded append. */
    method Report(errs: seq<Problem>, problem: Problem, found: bool) returns (errs': seq<Problem>)
      requires Checked(errs, Rank(problem)) && found == Has(problem)
      ensures Checked(errs', Rank(problem) + 1)
    {
      hide Has;
      assert forall i :: 0 <= i < |errs| ==> errs[i] in errs;
      assert forall p :: Rank(p) == Rank(problem) ==> p == problem;
      errs' := errs;
      if found {
        errs' := errs' + [problem];
      }
    }

    lemma StartChecked()
      ensures Checked([], 0)
    {
    }

    lemma SkipElection(errs: seq<Problem>)
      requires Checked(errs, 4)
      ensures !leaderElectionEnabled ==> Checked(errs, 8)
    {
    }

    lemma AllChecked(errs: seq<Problem>)
      requires Checked(errs, 12)
      ensures forall p :: p in errs <==> Has(p)
      ensures forall i, j :: 0 <= i < j < |errs| ==> Rank(errs[i]) < Rank(errs[j])
      ensures errs == [] <==> Valid()
    {
      ValidIff();
      hide Has, Valid;
      assert errs != [] ==> errs[0] in errs;
    }
  }

  // ----- what a validated configuration gives the running program -----

  function TimingOf(c: Config, lag: nat): Timing.Config {
    Timing.Config(EngineModel.EngineConfig(c.idleWindow, c.maxWait, c.combineTriggers), c.sessionTTL, lag)
  }

  /** With a validated configuration the window in which an event is certain to find its
      session is open, before the deliveries take their share, exactly when the session
      TTL is positive; every event is in one call once its time has passed, and one that
      arrived within the window is merged into the session it found. */
  lemma {:induction false} ValidatedWindow(c: Config, lag: nat, start: int, actions: seq<Timing.Action>,
                                           a: Debounce.Arrival)
    requires c.Valid()
    requires Timing.Run(TimingOf(c, lag), start, actions).Some?
    requires a in Timing.Run(TimingOf(c, lag), start, actions).value.timed.history
    ensures c.sessionTTL - EngineModel.Delay(c.maxWait) > 0 <==> c.sessionTTL > 0
    ensures 0 <= c.idleWindow ==> Race.Gap(TimingOf(c, lag).engine) == c.idleWindow
    ensures var s := Timing.Run(TimingOf(c, lag), start, actions).value;
      && (s.timed.engine.now > a.at + EngineModel.Delay(c.maxWait) + lag ==> exists i: nat :: Timing.Carries(s, i, a))
      && (forall i: nat :: Timing.Carries(s, i, a) ==>
            Timing.Reached(TimingOf(c, lag), s, i, a) && MergedInWindow(c, lag, s, i, a))
      && (forall i: nat, j: nat :: Timing.Carries(s, i, a) && Timing.Carries(s, j, a) ==> i == j)
  {
    var s := Timing.Run(TimingOf(c, lag), start, actions).value;
    Timing.ReachesTheSameSession(TimingOf(c, lag), start, actions, a);
    hide Timing.Run, Timing.Carries;
    forall i: nat | Timing.Carries(s, i, a) ensures MergedInWindow(c, lag, s, i, a) {
      assert Timing.Reached(TimingOf(c, lag), s, i, a);
    }
    hide Timing.Reached, MergedInWindow;
  }

  /** Call `i` got the session object the event found, if it arrived within the window. */
  predicate MergedInWindow(c: Config, lag: nat, s: Timing.State, i: nat, a: Debounce.Arrival) {
    var inTime := a.id < |s.marks| && s.marks[a.id].Some?
                  && a.at - s.marks[a.id].value.at <= c.sessionTTL - EngineModel.Delay(c.maxWait) - lag;
    i < |s.upserts| && (inTime ==> s.upserts[i].id == s.marks[a.id].value.id)
  }

  /** The call at `now` replaces the session object instead of using it. */
  predicate Replaces(c: Config, store: SessionModel.Store, now: int, key: SessionKey, events: seq<Event>)
    requires key in store.sessions
  {
    SessionModel.Begin(c.sessionTTL, store, now, key, events).1.id != store.sessions[key].id
  }

  /** Validation compares the durations with each other and not with zero: a negative
      session TTL can pass. Every use of a session then replaces it, whenever it comes,
      and only a negative TTL does that. */
  lemma AlwaysReplacesIff(c: Config, store: SessionModel.Store, key: SessionKey, events: seq<Event>)
    requires c.Valid()
    requires key in store.sessions && store.sessions[key].id < store.nextId
    ensures c.sessionTTL < 0 <==>
      forall now :: store.sessions[key].lastFlush <= now ==> Replaces(c, store, now, key, events)
  {
    hide SessionModel.Merge;
    assert c.sessionTTL >= 0 ==> !Replaces(c, store, store.sessions[key].lastFlush, key, events);
  }

  /** Valid configurations with a negative session TTL exist. */
  lemma NegativeTTLPasses()
    ensures exists c: Config :: c.Valid() && c.sessionTTL < 0
  {
    var c := Config(":8080", -3, -2, true, -1, "drop", 90, 5, "json", false, "", 15, 10, 2, "", 5, false, ":6060");
    assert Lower("drop") == "drop" && Lower("json") == "json";
    assert c.Valid();
  }

  // ----- the duplicate action -----

  predicate HasUpper(s: string) {
    exists c :: c in s && 'A' <= c <= 'Z'
  }

  /** Whether the publisher built from these settings replies to duplicates: it compares
      the setting as written. */
  predicate RepliesToDuplicates(c: Config) {
    c.duplicateAction == "thread"
  }

  /** Validation accepts any capitalisation of "thread"; the publisher does what the
      accepted word says exactly when the word has no capital letter or is "drop". */
  lemma AcceptedActionIsHonouredIff(c: Config)
    requires c.Valid()
    ensures (RepliesToDuplicates(c) <==> SameWord(c.duplicateAction, "thread"))
      <==> (!HasUpper(c.duplicateAction) || SameWord(c.duplicateAction, "drop"))
  {
    var d := c.duplicateAction;
    assert Lower("thread") == "thread" && !HasUpper("thread");
    if !HasUpper(d) {
      assert forall i :: 0 <= i < |d| ==> d[i] in d;
      assert Lower(d) == d;
    }
  }

  lemma CapitalThreadIsDropped()
    ensures SameWord("Thread", "thread") && "Thread" != "thread"
  {
    assert Lower("Thread") == "thread";
  }
}
