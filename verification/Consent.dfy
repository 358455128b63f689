/**
 What a lobby's history says about consent. Four readings of the history are kept up to date move
 by move; at the end they are shown to mean what they should.
 */
module Consent {
  import opened Types
  import opened Roster
  import opened Lobby

  /** The key and settings generation of the ready a seat stands by, if it stands by one. */
  ghost function Standing(log: seq<Event>, id: PlayerID): Option<(string, int)> {
    if |log| == 0 then None
    else
      match log[|log|-1]
      case Readied(i, key, gen) => if i == id then Some((key, gen)) else Standing(log[..|log|-1], id)
      case Unreadied(i) => if i == id then None else Standing(log[..|log|-1], id)
      case Joined(i) => if i == id then None else Standing(log[..|log|-1], id)
      case Left(i) => if i == id then None else Standing(log[..|log|-1], id)
      case Cleared => None
      case Settings(_, _) => None
      case _ => Standing(log[..|log|-1], id)
  }

  /** The settings in force and their generation. */
  ghost function InForce(log: seq<Event>): Option<(int, Config)> {
    if |log| == 0 then None
    else if log[|log|-1].Settings? then Some((log[|log|-1].gen, log[|log|-1].cfg))
    else InForce(log[..|log|-1])
  }

  /** The countdown that is running: the match and the roster it began with. */
  ghost function Running(log: seq<Event>): Option<(Config, seq<Player>)> {
    if |log| == 0 then None
    else
      match log[|log|-1]
      case Began(cfg, roster) => Some((cfg, roster))
      case Readied(_, _, _) => Running(log[..|log|-1])
      case Unreadied(_) => Running(log[..|log|-1])
      case _ => None
  }

  ghost predicate AllStand(log: seq<Event>, roster: seq<Player>, gen: int) {
    forall k :: 0 <= k < |roster| && !roster[k].bot ==> Standing(log, roster[k].seat) == Some((roster[k].pubKey, gen))
  }

  ghost predicate SameButSeed(cfg: Config, settings: Config) {
    cfg == settings.(seed := cfg.seed)
  }

  /** A match may be entered with this history: its countdown is running unbroken, it is built
      from the settings in force, and everybody in it stands by a ready for just those. */
  ghost predicate MayEnter(log: seq<Event>, cfg: Config, roster: seq<Player>) {
    && Running(log) == Some((cfg, roster))
    && InForce(log).Some?
    && SameButSeed(cfg, InForce(log).value.1)
    && AllStand(log, roster, InForce(log).value.0)
  }

  /** Every match ever entered was consented to, and no generation names two settings. */
  ghost predicate Consented(log: seq<Event>) {
    |log| > 0 ==>
      var before := log[..|log|-1];
      && Consented(before)
      && match log[|log|-1]
         case Entered(cfg, roster) => MayEnter(before, cfg, roster)
         case Settings(gen, _) => InForce(before).Some? ==> InForce(before).value.0 < gen
         case _ => true
  }

  // ---- What the readings mean ----

  /** Nothing between two points of the history undid a ready of this seat. */
  ghost predicate Undisturbed(log: seq<Event>, from: nat, to: nat, id: PlayerID) {
    forall j :: from < j < to && j < |log| ==>
      !log[j].Cleared? && !log[j].Settings? && log[j] != Unreadied(id) && log[j] != Left(id) && log[j] != Joined(id)
  }

  ghost predicate ReadyAt(log: seq<Event>, x: nat, n: nat, id: PlayerID, key: string, gen: int) {
    x < n <= |log| && log[x] == Readied(id, key, gen) && Undisturbed(log, x, n, id)
  }

  lemma {:induction false} StandingMeans(log: seq<Event>, n: nat, id: PlayerID)
    requires n <= |log| && Standing(log[..n], id).Some?
    ensures exists x :: ReadyAt(log, x, n, id, Standing(log[..n], id).value.0, Standing(log[..n], id).value.1)
  {
    var l := log[..n];
    assert l[..n - 1] == log[..n - 1];
    var e := log[n - 1];
    if e.Readied? && e.id == id {
      assert ReadyAt(log, n - 1, n, id, e.key, e.gen);
    } else {
      StandingMeans(log, n - 1, id);
      var x :| ReadyAt(log, x, n - 1, id, Standing(log[..n - 1], id).value.0, Standing(log[..n - 1], id).value.1);
      assert ReadyAt(log, x, n, id, Standing(l, id).value.0, Standing(l, id).value.1);
    }
  }

  ghost predicate SettingsAt(log: seq<Event>, x: nat, n: nat, gen: int, cfg: Config) {
    && x < n <= |log| && log[x] == Settings(gen, cfg)
    && forall j :: x < j < n ==> !log[j].Settings?
  }

  lemma {:induction false} InForceMeans(log: seq<Event>, n: nat)
    requires n <= |log| && InForce(log[..n]).Some?
    ensures exists x :: SettingsAt(log, x, n, InForce(log[..n]).value.0, InForce(log[..n]).value.1)
  {
    var l := log[..n];
    assert l[..n - 1] == log[..n - 1];
    if log[n - 1].Settings? {
      assert SettingsAt(log, n - 1, n, log[n - 1].gen, log[n - 1].cfg);
    } else {
      InForceMeans(log, n - 1);
      var x :| SettingsAt(log, x, n - 1, InForce(log[..n - 1]).value.0, InForce(log[..n - 1]).value.1);
      assert SettingsAt(log, x, n, InForce(l).value.0, InForce(l).value.1);
    }
  }

  ghost predicate CountdownFrom(log: seq<Event>, x: nat, n: nat, cfg: Config, roster: seq<Player>) {
    && x < n <= |log| && log[x] == Began(cfg, roster)
    && forall j :: x < j < n ==> log[j].Readied? || log[j].Unreadied?
  }

  lemma {:induction false} RunningMeans(log: seq<Event>, n: nat)
    requires n <= |log| && Running(log[..n]).Some?
    ensures exists x :: CountdownFrom(log, x, n, Running(log[..n]).value.0, Running(log[..n]).value.1)
  {
    var l := log[..n];
    assert l[..n - 1] == log[..n - 1];
    if log[n - 1].Began? {
      assert CountdownFrom(log, n - 1, n, log[n - 1].cfg, log[n - 1].roster);
    } else {
      RunningMeans(log, n - 1);
      var x :| CountdownFrom(log, x, n - 1, Running(log[..n - 1]).value.0, Running(log[..n - 1]).value.1);
      assert CountdownFrom(log, x, n, Running(l).value.0, Running(l).value.1);
    }
  }

  lemma {:induction false} ConsentedBefore(log: seq<Event>, n: nat)
    requires Consented(log) && n <= |log|
    ensures Consented(log[..n])
  {
    if n < |log| {
      assert log[..|log| - 1][..n] == log[..n];
      ConsentedBefore(log[..|log| - 1], n);
    } else {
      assert log[..n] == log;
    }
  }

  /** Whoever is in a match that was entered sent a ready for the generation of the very settings
      it was built from, after those were made and without taking it back; and from the
      countdown's start to the first tick nobody joined, left or changed a thing. */
  lemma EntryHadConsent(log: seq<Event>, n: nat)
    requires Consented(log) && n < |log| && log[n].Entered?
    ensures exists b: nat :: CountdownFrom(log, b, n, log[n].cfg, log[n].roster)
    ensures exists s: nat :: s < n && log[s].Settings? && SettingsAt(log, s, n, log[s].gen, log[s].cfg)
                             && SameButSeed(log[n].cfg, log[s].cfg) && AllReadySince(log, s, n, log[n].roster)
  {
    ConsentedBefore(log, n + 1);
    var l := log[..n + 1];
    assert l[..n] == log[..n];
    assert MayEnter(log[..n], log[n].cfg, log[n].roster);
    RunningMeans(log, n);
    InForceMeans(log, n);
    var gen, cfg := InForce(log[..n]).value.0, InForce(log[..n]).value.1;
    var s: nat :| SettingsAt(log, s, n, gen, cfg);
    StandingReadies(log, s, n, log[n].roster);
  }

  lemma StandingReadies(log: seq<Event>, s: nat, n: nat, roster: seq<Player>)
    requires s < n <= |log| && log[s].Settings? && AllStand(log[..n], roster, log[s].gen)
    ensures AllReadySince(log, s, n, roster)
  {
    hide Standing;
    forall k | 0 <= k < |roster| && !roster[k].bot
      ensures exists x: nat :: s < x && ReadyAt(log, x, n, roster[k].seat, roster[k].pubKey, log[s].gen)
    {
      StandingMeans(log, n, roster[k].seat);
      var x: nat :| ReadyAt(log, x, n, roster[k].seat, roster[k].pubKey, log[s].gen);
      assert x < s ==> log[s].Settings?;
    }
  }

  /** Everybody's ready came after the settings at s and quotes their generation. */
  ghost predicate AllReadySince(log: seq<Event>, s: nat, n: nat, roster: seq<Player>)
    requires s < |log| && log[s].Settings?
  {
    forall k :: 0 <= k < |roster| && !roster[k].bot ==>
      exists x: nat :: s < x && ReadyAt(log, x, n, roster[k].seat, roster[k].pubKey, log[s].gen)
  }

  /** A generation names one set of settings only. */
  lemma {:induction false} GenerationsAscend(log: seq<Event>, i: nat, j: nat)
    requires Consented(log) && i < j < |log| && log[i].Settings? && log[j].Settings?
    ensures log[i].gen < log[j].gen
    decreases j
  {
    ConsentedBefore(log, j + 1);
    assert log[..j + 1][..j] == log[..j];
    LaterInForce(log, i, j);
    InForceMeans(log, j);
    var x :| SettingsAt(log, x, j, InForce(log[..j]).value.0, InForce(log[..j]).value.1);
    if i < x {
      GenerationsAscend(log, i, x);
    }
  }

  lemma {:induction false} LaterInForce(log: seq<Event>, i: nat, n: nat)
    requires i < n <= |log| && log[i].Settings?
    ensures InForce(log[..n]).Some?
  {
    assert log[..n][..n - 1] == log[..n - 1];
    if i < n - 1 {
      LaterInForce(log, i, n - 1);
    }
  }

  // ---- Keeping the readings ----

  /** Every person who is ready stands by a ready of the present generation. */
  ghost predicate ReadiesStand(log: seq<Event>, gen: int, seats: seq<Seat>) {
    forall s :: s in seats && !s.bot && s.player.ready ==> Standing(log, s.id) == Some((s.player.pubKey, gen))
  }

  ghost predicate LogOk(r: Room) {
    && Consented(r.log)
    && InForce(r.log) == Some((r.gen, r.cfg))
    && ReadiesStand(r.log, r.gen, r.seats)
    && (r.phase == Countdown ==> Running(r.log) == Some((r.matchCfg, r.matchPlayers)))
  }

  lemma Grown(log: seq<Event>, e: Event)
    ensures (log + [e])[|log|] == e && (log + [e])[..|log|] == log
  {
  }
}
