/** The name of a schedule slot's Backup. */
module ScheduledNames {
  import opened Slots
  import Calendar
  import Run = BackupRun
  import BackupRunResults

  const MAX_LENGTH := 56

  predicate Lower(c: char) { 'a' <= c <= 'z' || '0' <= c <= '9' }

  function DnsChar(c: char): char
  {
    if Lower(c) || c == '-' then c
    else if 'A' <= c <= 'Z' then c - 'A' + 'a'
    else '-'
  }

  function DnsLabel(s: string): string
  {
    seq(|s|, i requires 0 <= i < |s| => DnsChar(s[i]))
  }

  predicate DnsSafe(s: string)
  {
    forall i :: 0 <= i < |s| ==> Lower(s[i]) || s[i] == '-'
  }

  function TrimDashes(s: string): string
  {
    if s != [] && s[|s| - 1] == '-' then TrimDashes(s[..|s| - 1]) else s
  }

  predicate AllLower(s: string)
  {
    forall i :: 0 <= i < |s| ==> Lower(s[i])
  }

  /** A 32-bit hash in hexadecimal. */
  type Hash = s: string | |s| <= 8 && AllLower(s)

  /** The schedule's part of the name: as it is when it is a short DNS label, and
      otherwise made one, shortened, and told apart by a hash of the original. */
  function Head(raw: string, hash: Hash, suffix: nat): string
    requires suffix <= 13
  {
    var base := DnsLabel(raw);
    if base == raw && |base| + suffix <= MAX_LENGTH then base
    else
      var limit := MAX_LENGTH - suffix - (1 + |hash|);
      (if |base| > limit then TrimDashes(base[..limit]) else base) + "-" + hash
  }

  /** stamp is the slot's minute in UTC, twelve digits. */
  function Name(raw: string, hash: Hash, stamp: string): string
    requires |stamp| == 12
  {
    Head(raw, hash, 13) + ("-" + stamp)
  }

  lemma {:induction false} Trimmed(s: string)
    ensures TrimDashes(s) <= s
    ensures s != [] && s[0] != '-' ==> TrimDashes(s) != []
  {
    if s != [] && s[|s| - 1] == '-' {
      Trimmed(s[..|s| - 1]);
    }
  }

  lemma LabelsAreSafe(s: string)
    ensures DnsSafe(DnsLabel(s)) && (DnsSafe(s) <==> DnsLabel(s) == s)
  {
    if DnsSafe(s) {
      assert forall i :: 0 <= i < |s| ==> DnsLabel(s)[i] == s[i];
    } else {
      var i :| 0 <= i < |s| && !(Lower(s[i]) || s[i] == '-');
      assert DnsLabel(s)[i] != s[i];
    }
  }

  /** Every name is a DNS label short enough for BR's Job to be named after it. */
  lemma NameIsLabel(raw: string, hash: Hash, stamp: string)
    requires raw != [] && Lower(raw[0]) && |stamp| == 12 && Calendar.Digits(stamp)
    ensures var n := Name(raw, hash, stamp);
      && 0 < |n| <= MAX_LENGTH && DnsSafe(n) && Lower(n[0]) && Lower(n[|n| - 1])
  {
    var base := DnsLabel(raw);
    LabelsAreSafe(raw);
    var limit := MAX_LENGTH - 13 - (1 + |hash|);
    if |base| > limit {
      Trimmed(base[..limit]);
      assert TrimDashes(base[..limit])[0] == base[0];
    }
    var n, head := Name(raw, hash, stamp), Head(raw, hash, 13);
    assert head[0] == base[0] && |head| + 13 <= MAX_LENGTH && DnsSafe(head);
    assert n[|n| - 1] == stamp[11];
  }

  // ------------------------------------------------------- when two names are one

  /** A name that needs no hash. */
  predicate Plain(raw: string)
  {
    DnsSafe(raw) && |raw| <= 43
  }

  /** What is left of a name that needs one: a label with room for the hash. */
  function Shortened(raw: string, hash: Hash): string
  {
    var base, room := DnsLabel(raw), 42 - |hash|;
    if |base| > room then TrimDashes(base[..room]) else base
  }

  function Stem(raw: string, hash: Hash): string
  {
    if Plain(raw) then raw else Shortened(raw, hash) + "-" + hash
  }

  /** Exactly when two slots, of any schedules, share a Backup name. */
  lemma NamesMeet(raw: string, hash: Hash, stamp: string, raw': string, hash': Hash, stamp': string)
    requires |stamp| == 12 && |stamp'| == 12
    ensures Name(raw, hash, stamp) == Name(raw', hash', stamp') <==> stamp == stamp' && Stem(raw, hash) == Stem(raw', hash')
  {
    HeadIsStem(raw, hash);
    HeadIsStem(raw', hash');
    if Name(raw, hash, stamp) == Name(raw', hash', stamp') {
      Ends(Stem(raw, hash), stamp, Stem(raw', hash'), stamp');
    }
  }

  lemma HeadIsStem(raw: string, hash: Hash)
    ensures Head(raw, hash, 13) == Stem(raw, hash)
  {
    LabelsAreSafe(raw);
  }

  lemma Ends(a: string, stamp: string, b: string, stamp': string)
    requires |stamp| == |stamp'| && a + ("-" + stamp) == b + ("-" + stamp')
    ensures a == b && stamp == stamp'
  {
    Calendar.Cut(a, "-" + stamp, b, "-" + stamp') by {
      assert |a + ("-" + stamp)| == |a| + 1 + |stamp|;
    }
    assert ("-" + stamp)[1..] == stamp && ("-" + stamp')[1..] == stamp';
  }

  /** What follows the last dash is told by the whole. */
  lemma LastDash(a: string, h: Hash, b: string, k: Hash)
    requires a + "-" + h == b + "-" + k
    ensures a == b && h == k
  {
    var s := a + "-" + h;
    assert s[|a|] == '-' && s[|b|] == '-';
    assert forall i :: |a| < i < |s| ==> s[i] == h[i - |a| - 1] && Lower(s[i]);
    assert forall i :: |b| < i < |s| ==> s[i] == k[i - |b| - 1] && Lower(s[i]);
    assert a == s[..|a|] && b == s[..|b|] && h == s[|a| + 1..] && k == s[|b| + 1..];
  }

  function RawOf(instance: string, schedule: string): string
  {
    instance + "-" + schedule
  }

  lemma RawTells(instance: string, s: string, t: string)
    requires RawOf(instance, s) == RawOf(instance, t)
    ensures s == t
  {
    assert s == RawOf(instance, s)[|instance| + 1..] && t == RawOf(instance, t)[|instance| + 1..];
  }

  /** Exactly when two schedules of one Instance share their names: never when
      neither needs a hash; when both do, if hash and shortened name agree; and
      when one does, if the other is called as the first is shortened and hashed. */
  lemma SchedulesMeet(instance: string, s: string, hash: Hash, t: string, hash': Hash, stamp: string)
    requires s != t && |stamp| == 12
    ensures var raw, raw' := RawOf(instance, s), RawOf(instance, t);
      Name(raw, hash, stamp) == Name(raw', hash', stamp) <==>
        if Plain(raw) && Plain(raw') then false
        else if Plain(raw) then raw == Shortened(raw', hash') + "-" + hash'
        else if Plain(raw') then raw' == Shortened(raw, hash) + "-" + hash
        else hash == hash' && Shortened(raw, hash) == Shortened(raw', hash')
  {
    var raw, raw' := RawOf(instance, s), RawOf(instance, t);
    NamesMeet(raw, hash, stamp, raw', hash', stamp);
    if raw == raw' {
      RawTells(instance, s, t);
    }
    if !Plain(raw) && !Plain(raw') && Stem(raw, hash) == Stem(raw', hash') {
      LastDash(Shortened(raw, hash), hash, Shortened(raw', hash'), hash');
    }
  }

  /** So the hash does not keep a schedule apart from all others: one that needs
      it shares its names with the one that is called so from the start. */
  lemma HashedMeetsPlain(instance: string, schedule: string, hash: Hash, hash': Hash, stamp: string)
    requires DnsSafe(instance) && !DnsSafe(schedule) && |stamp| == 12 && |instance| + |schedule| + |hash| <= 41
    ensures var plain := DnsLabel(schedule) + "-" + hash;
      plain != schedule && Name(RawOf(instance, plain), hash', stamp) == Name(RawOf(instance, schedule), hash, stamp)
  {
    var raw, plain := RawOf(instance, schedule), DnsLabel(schedule) + "-" + hash;
    LabelsAreSafe(schedule);
    NamesMeet(RawOf(instance, plain), hash', stamp, raw, hash, stamp);
    LabelOfRaw(instance, schedule);
    LabelOfRaw(instance, plain);
    assert RawOf(instance, plain) == DnsLabel(raw) + "-" + hash;
  }

  lemma LabelOfRaw(instance: string, schedule: string)
    requires DnsSafe(instance)
    ensures DnsLabel(RawOf(instance, schedule)) == RawOf(instance, DnsLabel(schedule))
    ensures DnsSafe(RawOf(instance, schedule)) <==> DnsSafe(schedule)
  {
    var raw := RawOf(instance, schedule);
    assert forall i :: 0 <= i < |schedule| ==> raw[|instance| + 1 + i] == schedule[i];
  }

  // ------------------------------------------------------- the scheduler's names

  /** How the scheduler names the Backups of an Instance. */
  function NameOf(instance: string, hash: string -> Hash): (string, Time) -> string
  {
    (schedule: string, slot: Time) => Name(RawOf(instance, schedule), hash(RawOf(instance, schedule)), StampOf(slot))
  }

  function StampOf(slot: Time): (stamp: string)
    ensures |stamp| == 12
  {
    Calendar.StampTells(slot, slot);
    Calendar.Stamp(slot)
  }

  function ConfigOf(crons: map<string, Cron>, instance: string, hash: string -> Hash): Run.Config
  {
    Run.Config(crons, NameOf(instance, hash), END)
  }

  /** Two slots of a schedule never share a name, whatever the hash: the names
      meet what is asked of them in the scheduler's runs. */
  lemma SlotsNeverShareAName(crons: map<string, Cron>, instance: string, hash: string -> Hash)
    requires forall s :: s in crons ==> IsCron(crons[s])
    ensures Run.Valid(ConfigOf(crons, instance, hash))
  {
    var c, nameOf := ConfigOf(crons, instance, hash), NameOf(instance, hash);
    forall s: string, t, u | s in crons && Run.IsSlot(c, s, t) && Run.IsSlot(c, s, u) && nameOf(s, t) == nameOf(s, u) ensures t == u {
      var raw := RawOf(instance, s);
      NamesMeet(raw, hash(raw), StampOf(t), raw, hash(raw), StampOf(u));
      NextIsLeastActivation(crons[s], t - 1);
      NextIsLeastActivation(crons[s], u - 1);
      Calendar.StampTells(t, u);
    }
  }

  /** The state a run of the scheduler reaches. */
  ghost function RunOf(crons: map<string, Cron>, instance: string, hash: string -> Hash, now: Time, actions: seq<Run.Action>): Run.World
    requires forall s :: s in crons ==> IsCron(crons[s])
  {
    SlotsNeverShareAName(crons, instance, hash);
    Run.Exec(ConfigOf(crons, instance, hash), Run.Fresh(now), actions)
  }

  /** The results on the scheduler's runs hold of the names it gives: no slot of
      a schedule creates a second Backup, and no schedule has two unfinished ones. */
  lemma SlotsFireOnceUnderTheirNames(crons: map<string, Cron>, instance: string, hash: string -> Hash, now: Time, actions: seq<Run.Action>)
    requires (forall s :: s in crons ==> IsCron(crons[s])) && HOUR <= now < END
    ensures var w := RunOf(crons, instance, hash, now, actions);
      && (forall i, j :: 0 <= i < j < |w.log| ==> w.log[i] != w.log[j])
      && (forall n, m :: Run.Unfinished(w, n) && Run.Unfinished(w, m) && BackupRunResults.SameSchedule(w, n, m) ==> n == m)
  {
    var c := ConfigOf(crons, instance, hash);
    SlotsNeverShareAName(crons, instance, hash);
    BackupRunResults.EachSlotFiresAtMostOnce(c, now, actions);
    var w := RunOf(crons, instance, hash, now, actions);
    assert w == Run.Exec(c, Run.Fresh(now), actions);
    forall i, j | 0 <= i < j < |w.log| ensures w.log[i] != w.log[j] { }
    forall n, m | Run.Unfinished(w, n) && Run.Unfinished(w, m) && BackupRunResults.SameSchedule(w, n, m) ensures n == m {
      BackupRunResults.AtMostOneUnfinished(c, now, actions, n, m);
    }
  }
}
