/** The daemon's outer loop around one stored refresh token: wait for consent,
    run an engine, and clear the token when Spotify refuses it. */
module TokenRunner {
  import opened Common

  type Token = string

  /** The stored token; how often anyone but an engine wrote it; how often an
      engine's write landed without its knowing; and how many engine loops
      were started. */
  datatype Account = Account(stored: Token, others: nat, lost: nat, loops: nat)

  // ---------- an engine and its token ----------

  /** The token the oauth2 client presents, and the last one the engine knows
      to be stored: the token it reports as held. */
  datatype Engine = Engine(presented: Token, last: Token)

  /** During an engine's life: a renewal, whose reply may carry a new refresh
      token, or a write by another process. */
  datatype LoopEvent = Renewal(refresh: Token, persist: Write) | OtherWrite(token: Token)

  function OtherWrote(a: Account, token: Token): Account {
    a.(stored := token, others := a.others + 1)
  }

  function OthersWrote(a: Account, tokens: seq<Token>): Account {
    if tokens == [] then a else OtherWrote(OthersWrote(a, Front(tokens)), Last(tokens))
  }

  datatype Living = Living(account: Account, engine: Engine, died: bool)

  /** rotatingTokenSource.Token after a successful renewal: a reply without a
      refresh token keeps the one presented. */
  function Renew(a: Account, e: Engine, refresh: Token, persist: Write): Living {
    var token := if refresh == "" then e.presented else refresh;
    if token == "" || token == e.last then Living(a, e.(presented := token), false)
    else
      var a' := if persist.Lands()
                then a.(stored := token, lost := if persist.Landed? then a.lost else a.lost + 1) else a;
      Living(a', Engine(token, if persist.Landed? then token else e.last), persist.Died())
  }

  function LiveOne(l: Living, event: LoopEvent): Living {
    if l.died then l
    else match event
      case Renewal(refresh, persist) => Renew(l.account, l.engine, refresh, persist)
      case OtherWrite(token) => l.(account := OtherWrote(l.account, token))
  }

  function Live(l: Living, events: seq<LoopEvent>): Living {
    if events == [] then l else LiveOne(Live(l, Front(events)), Last(events))
  }

  // ---------- one round of the runner ----------

  datatype AwaitEnd = Consented | AwaitFailed | AwaitCanceled

  /** Why an engine's loop returned: the grant was refused, or anything else. */
  datatype LoopEnd = Revoked | Returned

  datatype Round = Round(
    before: seq<Token>, read: Read,
    during: seq<Token>, await: AwaitEnd, reread: Read,
    life: seq<LoopEvent>, end: LoopEnd,
    untilClear: seq<Token>, clear: Write)

  datatype Next = Again | Exit

  /** What a round did: entered is the token its loop was started with, refused
      the one Spotify refused, held the one the engine reported, and erased the
      stored token that was cleared. */
  datatype RoundOutcome = RoundOutcome(
    account: Account, next: Next,
    entered: Option<Token>, refused: Option<Token>, held: Option<Token>, erased: Option<Token>)

  function Quit(a: Account): RoundOutcome {
    RoundOutcome(a, Exit, None, None, None, None)
  }

  /** The token the loop may be entered with, after waiting for consent if
      there was none; None when the runner returns instead. */
  datatype Ready = Ready(account: Account, token: Option<Token>)

  function Obtain(a: Account, r: Round): Ready {
    var a1 := OthersWrote(a, r.before);
    if !r.read.Answered? then Ready(a1, None)
    else if a1.stored != "" then Ready(a1, Some(a1.stored))
    else
      var a2 := OthersWrote(a1, r.during);
      if !r.await.Consented? || !r.reread.Answered? || a2.stored == "" then Ready(a2, None)
      else Ready(a2, Some(a2.stored))
  }

  /** ClearSpotifyRefreshTokenIf on the held token, and what follows. */
  function Clearing(a: Account, token: Token, e: Engine, r: Round): RoundOutcome {
    var a1 := OthersWrote(a, r.untilClear);
    var hit := r.clear.Lands() && a1.stored == e.last;
    RoundOutcome(if hit then a1.(stored := "") else a1,
                 if r.clear.Landed? then Again else Exit,
                 Some(token), Some(e.presented), Some(e.last), if hit then Some(a1.stored) else None)
  }

  function RunRound(a: Account, r: Round): RoundOutcome {
    var ready := Obtain(a, r);
    match ready.token
    case None => Quit(ready.account)
    case Some(token) =>
      var l := Live(Living(ready.account.(loops := ready.account.loops + 1), Engine(token, token), false), r.life);
      if l.died || r.end.Returned? then RoundOutcome(l.account, Exit, Some(token), None, None, None)
      else Clearing(l.account, token, l.engine, r)
  }

  datatype Run = Run(account: Account, next: Next)

  /** The account after the rounds, up to the one the runner returns in. */
  function RunRounds(a: Account, rounds: seq<Round>): Run {
    if rounds == [] then Run(a, Again)
    else
      var run := RunRounds(a, Front(rounds));
      if run.next.Exit? then run
      else
        var o := RunRound(run.account, Last(rounds));
        Run(o.account, o.next)
  }

  // ---------- the objects ----------

  class TokenStore {
    var token: Token
    ghost var others: nat
    ghost var lost: nat
    ghost var loops: nat

    ghost function Now(): Account
      reads this
    {
      Account(token, others, lost, loops)
    }

    method ByOthers(tokens: seq<Token>)
      modifies this
      ensures Now() == OthersWrote(old(Now()), tokens)
    {
      for i := 0 to |tokens|
        invariant Now() == OthersWrote(old(Now()), tokens[..i])
      {
        assert Front(tokens[..i + 1]) == tokens[..i] && Last(tokens[..i + 1]) == tokens[i];
        token, others := tokens[i], others + 1;
      }
      assert tokens[..|tokens|] == tokens;
    }

    method ByEngine(t: Token, write: Write)
      modifies this`token, this`lost
      ensures token == if write.Lands() then t else old(token)
      ensures lost == old(lost) + if write.Lands() && !write.Landed? then 1 else 0
    {
      if write.Lands() {
        token := t;
        if !write.Landed? {
          lost := lost + 1;
        }
      }
    }

    method ClearIf(rejected: Token, write: Write) returns (cleared: bool)
      modifies this`token
      ensures cleared <==> write.Lands() && old(token) == rejected
      ensures token == if cleared then "" else old(token)
    {
      cleared := write.Lands() && token == rejected;
      if cleared {
        token := "";
      }
    }
  }

  class RotatingTokenSource {
    const store: TokenStore
    var presented: Token
    var last: Token

    constructor (store: TokenStore, token: Token)
      ensures this.store == store && presented == last == token
    {
      this.store, presented, last := store, token, token;
    }

    method Token(refresh: Token, persist: Write) returns (died: bool)
      modifies this, store`token, store`lost
      ensures Living(store.Now(), Engine(presented, last), died) ==
              Renew(old(store.Now()), Engine(old(presented), old(last)), refresh, persist)
    {
      died := false;
      if refresh != "" {
        presented := refresh;
      }
      if presented == "" || presented == last {
        return;
      }
      store.ByEngine(presented, persist);
      if persist.Landed? {
        last := presented;
      }
      died := persist.Died();
    }
  }

  class SyncRunner {
    const store: TokenStore

    constructor (store: TokenStore)
      ensures this.store == store
    {
      this.store := store;
    }

    method GetToken(r: Round) returns (token: Option<Token>)
      modifies store
      ensures Ready(store.Now(), token) == Obtain(old(store.Now()), r)
    {
      store.ByOthers(r.before);
      if !r.read.Answered? {
        return None;
      }
      if store.token == "" {
        store.ByOthers(r.during);
        if !r.await.Consented? || !r.reread.Answered? || store.token == "" {
          return None;
        }
      }
      token := Some(store.token);
    }

    method Loop(token: Token, life: seq<LoopEvent>) returns (presented: Token, held: Token, died: bool)
      modifies store
      ensures Living(store.Now(), Engine(presented, held), died) ==
              Live(Living(old(store.Now()).(loops := old(store.loops) + 1), Engine(token, token), false), life)
    {
      var source := new RotatingTokenSource(store, token);
      store.loops := store.loops + 1;
      died := false;
      ghost var start := Living(store.Now(), Engine(token, token), false);
      for i := 0 to |life|
        invariant fresh(source) && source.store == store
        invariant Living(store.Now(), Engine(source.presented, source.last), died) == Live(start, life[..i])
      {
        assert Front(life[..i + 1]) == life[..i] && Last(life[..i + 1]) == life[i];
        if !died {
          match life[i]
          case Renewal(refresh, persist) => died := source.Token(refresh, persist);
          case OtherWrite(t) =>
            assert Front([t]) == [] && Last([t]) == t;
            store.ByOthers([t]);
        }
      }
      assert life[..|life|] == life;
      presented, held := source.presented, source.last;
    }

    /** One turn of the loop in syncRunner.run. */
    method Once(r: Round)
      returns (next: Next, entered: Option<Token>, refused: Option<Token>, held: Option<Token>, erased: Option<Token>)
      modifies store
      ensures RoundOutcome(store.Now(), next, entered, refused, held, erased) == RunRound(old(store.Now()), r)
    {
      next, refused, held, erased := Exit, None, None, None;
      entered := GetToken(r);
      if entered.None? {
        return;
      }
      var presented, mine, died := Loop(entered.value, r.life);
      if died || r.end.Returned? {
        return;
      }
      store.ByOthers(r.untilClear);
      var stored := store.token;
      var cleared := store.ClearIf(mine, r.clear);
      refused, held := Some(presented), Some(mine);
      erased := if cleared then Some(stored) else None;
      if r.clear.Landed? {
        next := Again;
      }
    }

    /** syncRunner.run, for as many turns as the process lives. */
    method RunLoop(rounds: seq<Round>) returns (next: Next)
      modifies store
      ensures Run(store.Now(), next) == RunRounds(old(store.Now()), rounds)
    {
      next := Again;
      for i := 0 to |rounds|
        invariant Run(store.Now(), next) == RunRounds(old(store.Now()), rounds[..i])
      {
        assert Front(rounds[..i + 1]) == rounds[..i] && Last(rounds[..i + 1]) == rounds[i];
        if next.Again? {
          var again, _, _, _, _ := Once(rounds[i]);
          next := again;
        }
      }
      assert rounds[..|rounds|] == rounds;
    }
  }

  // ---------- what is entered and what is erased ----------

  /** An engine's life begins with the token the loop is entered with. */
  function StartOf(a: Account, r: Round): Living
    requires Obtain(a, r).token.Some?
  {
    var ready := Obtain(a, r);
    Living(ready.account.(loops := ready.account.loops + 1), Engine(ready.token.value, ready.token.value), false)
  }

  /** The loop is only ever entered with a non-empty token, and it is the one
      the store held when it was read: after the waits of this round and
      before anything else. */
  lemma LoopStartsWithTheStoredToken(a: Account, r: Round)
    requires RunRound(a, r).entered.Some?
    ensures RunRound(a, r).entered.value != ""
    ensures RunRound(a, r).entered.value == OthersWrote(a, r.before).stored
            || (OthersWrote(a, r.before).stored == ""
                && RunRound(a, r).entered.value == OthersWrote(OthersWrote(a, r.before), r.during).stored)
  {
  }

  /** The last renewal brought a token the store did not acknowledge. */
  predicate LastRenewalUnstored(l: Living, events: seq<LoopEvent>) {
    events != [] &&
    match Last(events)
    case OtherWrite(_) => LastRenewalUnstored(l, Front(events))
    case Renewal(refresh, persist) =>
      var e := Live(l, Front(events)).engine;
      var token := if refresh == "" then e.presented else refresh;
      token != "" && token != e.last && !persist.Landed?
  }

  /** The held token is the presented one, unless the last renewal's token
      was not stored. */
  lemma {:induction false} HeldIsPresentedUnless(l: Living, events: seq<LoopEvent>)
    requires l.engine.presented == l.engine.last != ""
    ensures var e := Live(l, events).engine;
            && e.last != "" && e.presented != ""
            && (!Live(l, events).died ==> (e.last == e.presented <==> !LastRenewalUnstored(l, events)))
  {
    if events != [] {
      HeldIsPresentedUnless(l, Front(events));
    }
  }

  /** A clear erases exactly what was stored, only if that is the held token,
      and leaves any other token alone. It erases the very token Spotify
      refused exactly when the last renewal's token, if it was a new one, was
      stored. */
  lemma ClearErasesOnlyTheRefusedToken(a: Account, r: Round)
    requires RunRound(a, r).refused.Some?
    ensures var o := RunRound(a, r);
            var start := StartOf(a, r);
            var atClear := OthersWrote(Live(start, r.life).account, r.untilClear).stored;
            && (o.erased.Some? ==> o.erased == Some(atClear) && o.erased == o.held && o.account.stored == "")
            && (o.erased.None? ==> o.account.stored == atClear)
            && (o.erased.Some? ==> (o.erased == o.refused <==> !LastRenewalUnstored(start, r.life)))
  {
    LoopStartsWithTheStoredToken(a, r);
    HeldIsPresentedUnless(StartOf(a, r), r.life);
  }

  /** A renewal whose store write fails, followed by a revocation, erases a
      token other than the one refused. */
  lemma UnstoredRenewalErasesTheWrongToken()
    ensures exists a, r :: RunRound(a, r).erased.Some? && RunRound(a, r).erased != RunRound(a, r).refused
  {
    var a := Account("old", 0, 0, 0);
    var renewal := Renewal("new", Refused);
    var r := Round([], Answered, [], AwaitFailed, Answered, [renewal], Revoked, [], Landed);
    var start := Living(Account("old", 0, 0, 1), Engine("old", "old"), false);
    assert Front([renewal]) == [] && Last([renewal]) == renewal;
    assert Live(start, [renewal]) == Living(Account("old", 0, 0, 1), Engine("new", "old"), false);
    assert RunRound(a, r).erased == Some("old") && RunRound(a, r).refused == Some("new");
  }

  // ---------- the runner cannot spin ----------

  lemma {:induction false} OthersOnlyCount(a: Account, tokens: seq<Token>)
    ensures var a' := OthersWrote(a, tokens);
            && a'.others == a.others + |tokens| && a'.lost == a.lost && a'.loops == a.loops
            && (tokens == [] ==> a' == a)
  {
    if tokens != [] {
      OthersOnlyCount(a, Front(tokens));
    }
  }

  /** While an engine lives, the stored token is its last one, or somebody
      else wrote, or a write of its own went unacknowledged. */
  lemma {:induction false} LivingCounts(l: Living, events: seq<LoopEvent>)
    requires l.account.stored == l.engine.last
    ensures var l' := Live(l, events);
            && l'.account.loops == l.account.loops
            && l'.account.others >= l.account.others && l'.account.lost >= l.account.lost
            && (l'.account.stored == l'.engine.last
                || l'.account.others + l'.account.lost > l.account.others + l.account.lost)
  {
    if events != [] {
      LivingCounts(l, Front(events));
    }
  }

  /** Loops started are covered by foreign writes, but for one more while a
      token is stored or was just erased. */
  predicate Charged(a: Account) {
    a.loops <= a.others + a.lost || (a.loops == a.others + a.lost + 1 && a.stored == "")
  }

  lemma ObtainCounts(a: Account, r: Round)
    requires Charged(a)
    ensures var ready := Obtain(a, r);
            && Charged(ready.account)
            && (ready.token.Some? ==> ready.token.value == ready.account.stored
                                      && ready.account.loops <= ready.account.others + ready.account.lost)
  {
    var a1 := OthersWrote(a, r.before);
    OthersOnlyCount(a, r.before);
    OthersOnlyCount(a1, r.during);
  }

  lemma RoundIsCharged(a: Account, r: Round)
    requires Charged(a)
    ensures var o := RunRound(a, r);
            && o.account.loops <= o.account.others + o.account.lost + 1
            && (o.next.Again? ==> Charged(o.account))
  {
    ObtainCounts(a, r);
    var ready := Obtain(a, r);
    if ready.token.Some? {
      var start := StartOf(a, r);
      LivingCounts(start, r.life);
      OthersOnlyCount(Live(start, r.life).account, r.untilClear);
    }
  }

  /** In every run, however long, the engine loops started are at most one more
      than the token writes by anyone but the engine, counting as foreign a
      write of its own whose reply was lost. */
  lemma {:induction false} RunnerCannotSpin(a: Account, rounds: seq<Round>)
    requires a.others == a.lost == a.loops == 0
    ensures var run := RunRounds(a, rounds);
            && run.account.loops <= run.account.others + run.account.lost + 1
            && (run.account.lost == 0 ==> run.account.loops <= run.account.others + 1)
            && (run.next.Again? ==> Charged(run.account))
  {
    if rounds != [] {
      RunnerCannotSpin(a, Front(rounds));
      var run := RunRounds(a, Front(rounds));
      if run.next.Again? {
        RoundIsCharged(run.account, Last(rounds));
      }
    }
  }

  /** Nobody but the engine wrote, and two loops were started: the engine's own
      write landed, its reply was lost, and the refused token was no longer the
      stored one. */
  lemma LostReplyCostsALoop()
    ensures exists a: Account, rounds :: a.others == a.lost == a.loops == 0
              && RunRounds(a, rounds).account.loops == 2 && RunRounds(a, rounds).account.others == 0
  {
    var a := Account("old", 0, 0, 0);
    var renewal := Renewal("new", LandedReplyLost);
    var first := Round([], Answered, [], AwaitFailed, Answered, [renewal], Revoked, [], Landed);
    var second := Round([], Answered, [], AwaitFailed, Answered, [], Returned, [], Landed);
    assert Front([renewal]) == [] && Last([renewal]) == renewal;
    assert Live(Living(Account("old", 0, 0, 1), Engine("old", "old"), false), [renewal])
        == Living(Account("new", 0, 1, 1), Engine("new", "old"), false);
    assert RunRound(a, first).account == Account("new", 0, 1, 1) && RunRound(a, first).next.Again?;
    assert RunRound(Account("new", 0, 1, 1), second).account == Account("new", 0, 1, 2);
    assert Front([first, second]) == [first] && Front([first]) == [];
    assert RunRounds(a, [first]).account == Account("new", 0, 1, 1);
    assert RunRounds(a, [first, second]).account == Account("new", 0, 1, 2);
  }

  // ---------- when a round is tried again for nothing ----------

  predicate OnlyRenewals(events: seq<LoopEvent>) {
    forall i :: 0 <= i < |events| ==> events[i].Renewal?
  }

  /** Of the writes by this engine that landed, the last one was not
      acknowledged. */
  predicate LastWriteLost(l: Living, events: seq<LoopEvent>) {
    events != [] &&
    match Last(events)
    case OtherWrite(_) => LastWriteLost(l, Front(events))
    case Renewal(refresh, persist) =>
      var before := Live(l, Front(events));
      var token := if refresh == "" then before.engine.presented else refresh;
      if !before.died && token != "" && token != before.engine.last && persist.Lands()
      then !persist.Landed?
      else LastWriteLost(l, Front(events))
  }

  /** While nobody else writes, the stored token is the held one unless the
      reply to the last write was lost. */
  lemma {:induction false} StoredIsHeldExactlyWhen(l: Living, events: seq<LoopEvent>)
    requires !l.died && l.account.stored == l.engine.last && OnlyRenewals(events)
    ensures var l' := Live(l, events);
            && (!l'.died ==> (l'.account.stored == l'.engine.last <==> !LastWriteLost(l, events)))
  {
    if events != [] {
      assert Last(events) == events[|events| - 1];
      StoredIsHeldExactlyWhen(l, Front(events));
    }
  }

  /** A token is refused and nobody else has written since the loop was
      entered: the runner goes round again without having cleared anything
      exactly when the clear is acknowledged and the engine's last write was
      not. */
  lemma RetriesWithNothingClearedExactlyWhen(a: Account, r: Round)
    requires RunRound(a, r).refused.Some? && OnlyRenewals(r.life) && r.untilClear == []
    ensures var o := RunRound(a, r);
            o.next.Again? && o.erased.None? <==> r.clear.Landed? && LastWriteLost(StartOf(a, r), r.life)
  {
    StoredIsHeldExactlyWhen(StartOf(a, r), r.life);
  }

  // ---------- an erased token stays erased ----------

  predicate EventBrings(e: LoopEvent, t: Token) {
    match e
    case Renewal(refresh, _) => refresh == t
    case OtherWrite(token) => token == t
  }

  /** Somebody else writes the token during the round, or Spotify issues it. */
  predicate Brings(r: Round, t: Token) {
    || t in r.before || t in r.during || t in r.untilClear
    || exists i :: 0 <= i < |r.life| && EventBrings(r.life[i], t)
  }

  lemma {:induction false} OthersBringOnly(a: Account, tokens: seq<Token>, t: Token)
    requires a.stored != t && t !in tokens
    ensures OthersWrote(a, tokens).stored != t
  {
    if tokens != [] {
      assert tokens == Front(tokens) + [Last(tokens)];
      OthersBringOnly(a, Front(tokens), t);
    }
  }

  lemma {:induction false} LifeBringsOnly(l: Living, events: seq<LoopEvent>, t: Token)
    requires t != "" && l.account.stored != t && l.engine.presented != t
    requires forall i :: 0 <= i < |events| ==> !EventBrings(events[i], t)
    ensures var l' := Live(l, events);
            l'.account.stored != t && l'.engine.presented != t
  {
    if events != [] {
      LifeBringsOnly(l, Front(events), t);
      assert Last(events) == events[|events| - 1];
    }
  }

  /** A token that is not stored comes in, or is entered with, only if it is
      brought. */
  lemma RoundBringsOnly(a: Account, r: Round, t: Token)
    requires t != "" && a.stored != t && !Brings(r, t)
    ensures RunRound(a, r).entered != Some(t) && RunRound(a, r).account.stored != t
  {
    var a1 := OthersWrote(a, r.before);
    OthersBringOnly(a, r.before, t);
    OthersBringOnly(a1, r.during, t);
    var ready := Obtain(a, r);
    if ready.token.Some? {
      var start := StartOf(a, r);
      LifeBringsOnly(start, r.life, t);
      OthersBringOnly(Live(start, r.life).account, r.untilClear, t);
    }
  }

  lemma {:induction false} RunBringsOnly(a: Account, rounds: seq<Round>, t: Token)
    requires t != "" && a.stored != t && forall i :: 0 <= i < |rounds| ==> !Brings(rounds[i], t)
    ensures RunRounds(a, rounds).account.stored != t
  {
    if rounds != [] {
      RunBringsOnly(a, Front(rounds), t);
      assert Last(rounds) == rounds[|rounds| - 1];
      RoundBringsOnly(RunRounds(a, Front(rounds)).account, Last(rounds), t);
    }
  }

  /** After a clear erased a token, no later round of the run enters the loop
      with it, unless somebody else wrote it or Spotify issued it again. */
  lemma ErasedTokenIsNotUsedAgain(a: Account, erasing: Round, later: seq<Round>, r: Round, t: Token)
    requires RunRound(a, erasing).erased == Some(t)
    requires !Brings(r, t) && forall i :: 0 <= i < |later| ==> !Brings(later[i], t)
    ensures RunRound(RunRounds(RunRound(a, erasing).account, later).account, r).entered != Some(t)
  {
    var after := RunRound(a, erasing).account;
    ErasedIsNotBlank(a, erasing);
    RunBringsOnly(after, later, t);
    RoundBringsOnly(RunRounds(after, later).account, r, t);
  }

  lemma ErasedIsNotBlank(a: Account, r: Round)
    requires RunRound(a, r).erased.Some?
    ensures RunRound(a, r).erased.value != "" && RunRound(a, r).account.stored == ""
  {
    LoopStartsWithTheStoredToken(a, r);
    HeldIsPresentedUnless(StartOf(a, r), r.life);
  }
}
