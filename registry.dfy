/**
 * limiter/builder.go: the default limiter manager. WithDefault builds it
 * from the configured limiter options, createLimiter checks one option and
 * registers its limiters under "tag", "user" and "inbound" keys, and
 * NewConnWithLimiters / NewPacketConnWithLimiters wrap a connection once
 * for every limiter that applies to it.
 *
 * The byte-size and duration parsers the source calls (humanize.ParseBytes
 * and time.ParseDuration) are parameters, so every property holds whatever
 * they accept.
 */
module Registry {
  import opened Basics
  import opened Pacing

  /** The key prefixes prefixTag, prefixUser and prefixInbound ("tag", "user", "inbound"). */
  datatype Prefix = PrefixTag | PrefixUser | PrefixInbound

  /** limiterKey: the map key a limiter is registered under. */
  datatype LimiterKey = LimiterKey(prefix: Prefix, name: string)

  /** option.Limiter: one limiter entry of the configuration. */
  datatype LimiterOption = LimiterOption(
    tag: string,
    download: string,
    upload: string,
    timeout: string,
    authUser: seq<string>,
    authUserIndependent: bool,
    inbound: seq<string>,
    inboundIndependent: bool)

  /**
   * The parsers createLimiter relies on: a byte size such as "10M" and a
   * duration such as "30s" (in nanoseconds), each failing with a message.
   */
  datatype Parsers = Parsers(
    parseBytes: string -> Result<nat, string>,
    parseDuration: string -> Result<int, string>)

  /** The numbers newLimiter is called with. */
  datatype Settings = Settings(download: nat, upload: nat, timeout: int)

  /** Why createLimiter refused an option. */
  datatype ConfigError =
    | Invalid(reason: string) // a field did not parse; the parser's message
    | NoLimit                 // download/upload/timeout, at least one must be set
    | NoTarget                // tag/user/inbound, at least one must be set

  /** The metadata of an inbound connection, as far as limiters use it. */
  datatype InboundContext = InboundContext(user: string, inbound: string)

  /** A routing rule, as far as limiters use it: its limiter tags, in order. */
  datatype Rule = Rule(limiters: seq<string>)

  // ---------------------------------------------------------------------
  // Checking an option.
  // ---------------------------------------------------------------------

  /** A byte-size field: the empty string means 0 and is not parsed. */
  function SizeField(s: string, ps: Parsers): Result<nat, string> {
    if s == "" then Success(0) else ps.parseBytes(s)
  }

  /** A duration field: the empty string means 0 and is not parsed. */
  function DurationField(s: string, ps: Parsers): Result<int, string> {
    if s == "" then Success(0) else ps.parseDuration(s)
  }

  /**
   * The checks at the start of createLimiter: download, upload and timeout
   * are parsed in this order and the first parse error is returned; then
   * at least one of them must be non-zero, and then the option must name a
   * tag, a user or an inbound.
   */
  function Check(opt: LimiterOption, ps: Parsers): (r: Result<Settings, ConfigError>)
    ensures r.Success? ==> HasTarget(opt) && r.value != Settings(0, 0, 0)
    ensures r.Failure? && r.error.Invalid? ==> opt.download != "" || opt.upload != "" || opt.timeout != ""
  {
    var d := SizeField(opt.download, ps);
    if d.Failure? then Failure(Invalid(d.error))
    else
      var u := SizeField(opt.upload, ps);
      if u.Failure? then Failure(Invalid(u.error))
      else
        var t := DurationField(opt.timeout, ps);
        if t.Failure? then Failure(Invalid(t.error))
        else if d.value == 0 && u.value == 0 && t.value == 0 then Failure(NoLimit)
        else if !HasTarget(opt) then Failure(NoTarget)
        else Success(Settings(d.value, u.value, t.value))
  }

  predicate HasTarget(opt: LimiterOption) {
    opt.tag != "" || |opt.authUser| > 0 || |opt.inbound| > 0
  }

  /**
   * An option is accepted exactly when its non-empty fields parse, one of
   * the three settings is non-zero and it names a target; an accepted
   * option yields the parsed settings; a parse error can only come from a
   * non-empty field, and NoTarget only from an option without targets.
   */
  lemma CheckAccepts(opt: LimiterOption, ps: Parsers)
    ensures var r := Check(opt, ps);
            && (r.Success? <==>
                  && SizeField(opt.download, ps).Success?
                  && SizeField(opt.upload, ps).Success?
                  && DurationField(opt.timeout, ps).Success?
                  && (SizeField(opt.download, ps).value != 0 || SizeField(opt.upload, ps).value != 0
                      || DurationField(opt.timeout, ps).value != 0)
                  && HasTarget(opt))
            && (r.Success? ==> r.value == Settings(SizeField(opt.download, ps).value, SizeField(opt.upload, ps).value,
                                                   DurationField(opt.timeout, ps).value))
            && (r.Success? ==> r.value != Settings(0, 0, 0))
            && (r == Failure(NoTarget) ==> !HasTarget(opt))
            && (r.Failure? && r.error.Invalid? ==> opt.download != "" || opt.upload != "" || opt.timeout != "")
  {
  }

  /** The error createLimiter returns for opt, if any. */
  function Outcome(opt: LimiterOption, ps: Parsers): Option<ConfigError> {
    var c := Check(opt, ps);
    if c.Failure? then Some(c.error) else None
  }

  /**
   * Empty fields are never handed to a parser: two parsers that agree on
   * the non-empty fields of an option check it alike.
   */
  lemma CheckIgnoresEmptyFields(opt: LimiterOption, ps: Parsers, qs: Parsers)
    requires opt.download != "" ==> ps.parseBytes(opt.download) == qs.parseBytes(opt.download)
    requires opt.upload != "" ==> ps.parseBytes(opt.upload) == qs.parseBytes(opt.upload)
    requires opt.timeout != "" ==> ps.parseDuration(opt.timeout) == qs.parseDuration(opt.timeout)
    ensures Check(opt, ps) == Check(opt, qs)
  {
  }

  /** An option that sets no download, upload or timeout is refused with NoLimit. */
  lemma NothingSetIsRefused(opt: LimiterOption, ps: Parsers)
    requires opt.download == "" && opt.upload == "" && opt.timeout == ""
    ensures Check(opt, ps) == Failure(NoLimit)
  {
  }

  /** The limits are checked before the targets: NoTarget only for a well-formed option with a limit. */
  lemma NoTargetMeansLimitsFine(opt: LimiterOption, ps: Parsers)
    requires Check(opt, ps) == Failure(NoTarget)
    ensures Check(opt.(tag := "x"), ps).Success?
  {
  }

  // ---------------------------------------------------------------------
  // The keys an option registers.
  // ---------------------------------------------------------------------

  function TagKey(tag: string): LimiterKey { LimiterKey(PrefixTag, tag) }
  function UserKey(user: string): LimiterKey { LimiterKey(PrefixUser, user) }
  function InboundKey(inbound: string): LimiterKey { LimiterKey(PrefixInbound, inbound) }

  function TagKeys(opt: LimiterOption): set<LimiterKey> {
    if opt.tag != "" then {TagKey(opt.tag)} else {}
  }

  /** The keys with the given prefix of the given names. */
  function NameKeys(prefix: Prefix, names: seq<string>): (ks: set<LimiterKey>)
    decreases |names|
  {
    if |names| == 0 then {}
    else NameKeys(prefix, names[..|names| - 1]) + {LimiterKey(prefix, names[|names| - 1])}
  }

  lemma {:induction false} NameKeysMembers(prefix: Prefix, names: seq<string>, k: LimiterKey)
    ensures k in NameKeys(prefix, names) <==> k.prefix == prefix && k.name in names
    decreases |names|
  {
    if |names| > 0 {
      var t := names[..|names| - 1];
      NameKeysMembers(prefix, t, k);
      assert names == t + [names[|names| - 1]];
    }
  }

  lemma NameKeysStep(prefix: Prefix, names: seq<string>, i: nat)
    requires i < |names|
    ensures NameKeys(prefix, names[..i + 1]) == NameKeys(prefix, names[..i]) + {LimiterKey(prefix, names[i])}
  {
    assert names[..i + 1][..i] == names[..i];
  }

  /** Every key createLimiter writes for an accepted option. */
  function Keys(opt: LimiterOption): set<LimiterKey> {
    TagKeys(opt) + NameKeys(PrefixUser, opt.authUser) + NameKeys(PrefixInbound, opt.inbound)
  }

  /**
   * The key is bound to the option's shared limiter: the tag key always,
   * user keys unless users are independent, inbound keys unless inbounds
   * are independent. Every other key gets a limiter of its own.
   */
  predicate Shared(opt: LimiterOption, k: LimiterKey) {
    || k.prefix == PrefixTag
    || (k.prefix == PrefixUser && !opt.authUserIndependent)
    || (k.prefix == PrefixInbound && !opt.inboundIndependent)
  }

  /** An accepted option registers at least one key. */
  lemma AcceptedOptionHasKeys(opt: LimiterOption, ps: Parsers)
    requires Check(opt, ps).Success?
    ensures Keys(opt) != {}
  {
    CheckAccepts(opt, ps);
    if opt.tag != "" {
      assert TagKey(opt.tag) in Keys(opt);
    } else if |opt.authUser| > 0 {
      NameKeysMembers(PrefixUser, opt.authUser, UserKey(opt.authUser[0]));
      assert UserKey(opt.authUser[0]) in Keys(opt);
    } else {
      NameKeysMembers(PrefixInbound, opt.inbound, InboundKey(opt.inbound[0]));
      assert InboundKey(opt.inbound[0]) in Keys(opt);
    }
  }

  // ---------------------------------------------------------------------
  // Which limiters apply to a connection.
  // ---------------------------------------------------------------------

  /** The limiter registered under k, as a list of zero or one. */
  function Hit(mp: map<LimiterKey, Limiter>, k: LimiterKey): seq<Limiter> {
    if k in mp then [mp[k]] else []
  }

  /** The limiters registered under the rule's tags, in the rule's order. */
  function TagHits(mp: map<LimiterKey, Limiter>, tags: seq<string>): seq<Limiter>
    decreases |tags|
  {
    if |tags| == 0 then []
    else TagHits(mp, tags[..|tags| - 1]) + Hit(mp, TagKey(tags[|tags| - 1]))
  }

  /**
   * The limiters that apply to a connection, in the order it is wrapped
   * (innermost first): those of the rule's tags, then the one of the user,
   * then the one of the inbound.
   */
  function Resolve(mp: map<LimiterKey, Limiter>, metadata: Option<InboundContext>, rule: Option<Rule>): seq<Limiter> {
    (if rule.Some? then TagHits(mp, rule.value.limiters) else [])
    + (if metadata.Some? then Hit(mp, UserKey(metadata.value.user)) + Hit(mp, InboundKey(metadata.value.inbound)) else [])
  }

  lemma {:induction false} TagHitsAppend(mp: map<LimiterKey, Limiter>, a: seq<string>, b: seq<string>)
    ensures TagHits(mp, a + b) == TagHits(mp, a) + TagHits(mp, b)
    decreases |b|
  {
    if |b| == 0 {
      assert a + b == a;
    } else {
      var b' := b[..|b| - 1];
      assert (a + b)[..|a + b| - 1] == a + b';
      assert (a + b)[|a + b| - 1] == b[|b| - 1];
      TagHitsAppend(mp, a, b');
    }
  }

  /**
   * A limiter applies through the rule exactly when one of the rule's tags
   * is registered to it; a tag that is not registered is skipped.
   */
  lemma {:induction false} TagHitsMembers(mp: map<LimiterKey, Limiter>, tags: seq<string>, x: Limiter)
    ensures x in TagHits(mp, tags) <==> exists i | 0 <= i < |tags| :: TagKey(tags[i]) in mp && mp[TagKey(tags[i])] == x
    decreases |tags|
  {
    if |tags| > 0 {
      var t := tags[..|tags| - 1];
      TagHitsMembers(mp, t, x);
      if exists i | 0 <= i < |tags| :: TagKey(tags[i]) in mp && mp[TagKey(tags[i])] == x {
        var i :| 0 <= i < |tags| && TagKey(tags[i]) in mp && mp[TagKey(tags[i])] == x;
        if i < |tags| - 1 {
          assert tags[i] == t[i];
        }
      }
      if x in TagHits(mp, t) {
        var i :| 0 <= i < |t| && TagKey(t[i]) in mp && mp[TagKey(t[i])] == x;
        assert tags[i] == t[i];
      }
    }
  }

  lemma {:induction false} TagHitsLength(mp: map<LimiterKey, Limiter>, tags: seq<string>)
    ensures |TagHits(mp, tags)| <= |tags|
    ensures (forall i | 0 <= i < |tags| :: TagKey(tags[i]) in mp) ==> |TagHits(mp, tags)| == |tags|
    decreases |tags|
  {
    if |tags| > 0 {
      TagHitsLength(mp, tags[..|tags| - 1]);
    }
  }

  /**
   * What applies to a connection: at most one limiter per rule tag plus one
   * for the user and one for the inbound, each registered in the manager;
   * without rule and metadata nothing applies.
   */
  lemma ResolveBounds(mp: map<LimiterKey, Limiter>, metadata: Option<InboundContext>, rule: Option<Rule>)
    ensures var ls := Resolve(mp, metadata, rule);
            && |ls| <= (if rule.Some? then |rule.value.limiters| else 0) + (if metadata.Some? then 2 else 0)
            && (forall i | 0 <= i < |ls| :: ls[i] in mp.Values)
            && (rule.None? ==> ls == (if metadata.Some? then Hit(mp, UserKey(metadata.value.user)) + Hit(mp, InboundKey(metadata.value.inbound)) else []))
            && (metadata.None? ==> ls == (if rule.Some? then TagHits(mp, rule.value.limiters) else []))
  {
    var ls := Resolve(mp, metadata, rule);
    if rule.Some? {
      TagHitsLength(mp, rule.value.limiters);
      forall x | x in TagHits(mp, rule.value.limiters)
        ensures x in mp.Values
      {
        TagHitsMembers(mp, rule.value.limiters, x);
      }
    }
  }

  /** Wrapping base in the limiters ls, one layer each, ls's last outermost. */
  ghost predicate WrappedBy(r: Conn, base: Conn, ls: seq<Limiter>)
    decreases |ls|
  {
    if |ls| == 0 then r == base
    else r.Limited? && r.wrapper.limiter == ls[|ls| - 1] && WrappedBy(r.wrapper.inner, base, ls[..|ls| - 1])
  }

  ghost predicate PacketWrappedBy(r: PacketConn, base: PacketConn, ls: seq<Limiter>)
    decreases |ls|
  {
    if |ls| == 0 then r == base
    else r.PacketLimited? && r.wrapper.limiter == ls[|ls| - 1] && PacketWrappedBy(r.wrapper.inner, base, ls[..|ls| - 1])
  }

  /** One more layer: wrapping r, which wears ls[..i], in ls[i]. */
  lemma WrapOnce(r: Conn, base: Conn, ls: seq<Limiter>, i: nat, w: ConnWithLimiter)
    requires i < |ls| && WrappedBy(r, base, ls[..i]) && w.inner == r && w.limiter == ls[i]
    ensures WrappedBy(Limited(w), base, ls[..i + 1])
  {
    assert ls[..i + 1][..i] == ls[..i];
  }

  lemma PacketWrapOnce(r: PacketConn, base: PacketConn, ls: seq<Limiter>, i: nat, w: PacketConnWithLimiter)
    requires i < |ls| && PacketWrappedBy(r, base, ls[..i]) && w.inner == r && w.limiter == ls[i]
    ensures PacketWrappedBy(PacketLimited(w), base, ls[..i + 1])
  {
    assert ls[..i + 1][..i] == ls[..i];
  }

  // ---------------------------------------------------------------------
  // Which limiter a key ends up with after WithDefault.
  // ---------------------------------------------------------------------

  /** Option opt, if accepted, registers key k. */
  predicate Claims(opt: LimiterOption, ps: Parsers, k: LimiterKey) {
    Check(opt, ps).Success? && k in Keys(opt)
  }

  /**
   * The index of the last accepted option among options that registers k:
   * later options overwrite the keys of earlier ones.
   */
  function Owner(options: seq<LimiterOption>, ps: Parsers, k: LimiterKey): (r: Option<nat>)
    ensures r.Some? ==> r.value < |options| && Claims(options[r.value], ps, k)
    decreases |options|
  {
    if |options| == 0 then None
    else
      var i := |options| - 1;
      if Claims(options[i], ps, k) then Some(i)
      else Owner(options[..i], ps, k)
  }

  /** The outcomes of checking each option, in order. */
  function Outcomes(options: seq<LimiterOption>, ps: Parsers): seq<Option<ConfigError>>
    decreases |options|
  {
    if |options| == 0 then []
    else Outcomes(options[..|options| - 1], ps) + [Outcome(options[|options| - 1], ps)]
  }

  lemma {:induction false} OutcomesIndex(options: seq<LimiterOption>, ps: Parsers)
    ensures |Outcomes(options, ps)| == |options|
    ensures forall i | 0 <= i < |options| :: Outcomes(options, ps)[i] == Outcome(options[i], ps)
    decreases |options|
  {
    if |options| > 0 {
      var t := options[..|options| - 1];
      OutcomesIndex(t, ps);
      assert forall i | 0 <= i < |t| :: options[i] == t[i];
    }
  }

  /** A key has an owner exactly when some option claims it, and no later option does. */
  lemma {:induction false} OwnerExists(options: seq<LimiterOption>, ps: Parsers, k: LimiterKey)
    ensures Owner(options, ps, k).Some? <==> exists i | 0 <= i < |options| :: Claims(options[i], ps, k)
    ensures Owner(options, ps, k).Some? ==>
              forall j | Owner(options, ps, k).value < j < |options| :: !Claims(options[j], ps, k)
    decreases |options|
  {
    if |options| > 0 {
      var i := |options| - 1;
      var t := options[..i];
      OwnerExists(t, ps, k);
      if !Claims(options[i], ps, k) {
        assert forall j | 0 <= j < i :: options[j] == t[j];
      }
    }
  }

  /** The keys that are registered after options: those of the accepted options. */
  ghost function Registered(options: seq<LimiterOption>, ps: Parsers): set<LimiterKey>
    decreases |options|
  {
    if |options| == 0 then {}
    else
      var i := |options| - 1;
      Registered(options[..i], ps) + (if Check(options[i], ps).Success? then Keys(options[i]) else {})
  }

  lemma {:induction false} RegisteredIsOwned(options: seq<LimiterOption>, ps: Parsers, k: LimiterKey)
    ensures k in Registered(options, ps) <==> Owner(options, ps, k).Some?
    decreases |options|
  {
    if |options| > 0 {
      RegisteredIsOwned(options[..|options| - 1], ps, k);
    }
  }

  /**
   * Two registered keys share one limiter exactly when they are the same
   * key or both were last written by the same option as shared keys.
   */
  ghost predicate Aliased(options: seq<LimiterOption>, ps: Parsers, k1: LimiterKey, k2: LimiterKey)
    requires Owner(options, ps, k1).Some? && Owner(options, ps, k2).Some?
  {
    var i := Owner(options, ps, k1).value;
    || k1 == k2
    || (i == Owner(options, ps, k2).value && Shared(options[i], k1) && Shared(options[i], k2))
  }

  // ---------------------------------------------------------------------
  // The manager.
  // ---------------------------------------------------------------------

  /**
   * The limiters of the keys in ks are built from s, and two of them are
   * the same object exactly when the keys are equal or both are shared
   * keys of opt.
   */
  ghost predicate FreshFor(m: map<LimiterKey, Limiter>, opt: LimiterOption, s: Settings, ks: set<LimiterKey>)
    requires ks <= m.Keys
  {
    && (forall k | k in ks :: m[k].Built(s.download, s.upload, s.timeout))
    && (forall k1, k2 | k1 in ks && k2 in ks :: m[k1] == m[k2] <==> k1 == k2 || (Shared(opt, k1) && Shared(opt, k2)))
  }

  /**
   * How createLimiter has bound key k: to a limiter built from s that is
   * the shared one if k is a shared key, and otherwise a limiter of its
   * own, which back maps to k.
   */
  ghost predicate BoundAs(m: map<LimiterKey, Limiter>, opt: LimiterOption, s: Settings, shared: Limiter?,
                          back: map<Limiter, LimiterKey>, k: LimiterKey)
    requires k in m
  {
    && m[k].Built(s.download, s.upload, s.timeout)
    && (Shared(opt, k) ==> m[k] == shared)
    && (!Shared(opt, k) ==> m[k] != shared && m[k] in back && back[m[k]] == k)
  }

  /**
   * The loop invariant of createLimiter: the keys ks have been bound on
   * top of m0, as BoundAs says, and no other key has changed.
   */
  ghost predicate Progress(m: map<LimiterKey, Limiter>, opt: LimiterOption, s: Settings, shared: Limiter?,
                           back: map<Limiter, LimiterKey>, ks: set<LimiterKey>, m0: map<LimiterKey, Limiter>)
  {
    && m.Keys == m0.Keys + ks
    && (forall k | k in m0 && k !in ks :: m[k] == m0[k])
    && (forall k | k in ks :: BoundAs(m, opt, s, shared, back, k))
    && (forall k | k in ks :: m[k] !in m0.Values)
  }

  /** Binding a key that is not shared to a limiter of its own. */
  lemma BindOwn(m: map<LimiterKey, Limiter>, opt: LimiterOption, s: Settings, shared: Limiter?,
                back: map<Limiter, LimiterKey>, ks: set<LimiterKey>, m0: map<LimiterKey, Limiter>,
                k: LimiterKey, l: Limiter)
    requires Progress(m, opt, s, shared, back, ks, m0)
    requires !Shared(opt, k) && l.Built(s.download, s.upload, s.timeout) && l != shared
    requires forall k' | k' in ks :: m[k'] != l
    requires l !in m0.Values
    ensures Progress(m[k := l], opt, s, shared, back[l := k], ks + {k}, m0)
  {
    var m' := m[k := l];
    forall k' | k' in ks + {k}
      ensures BoundAs(m', opt, s, shared, back[l := k], k')
    {
      if k' != k {
        assert BoundAs(m, opt, s, shared, back, k');
      }
    }
  }

  /** Binding a shared key to the shared limiter. */
  lemma BindShared(m: map<LimiterKey, Limiter>, opt: LimiterOption, s: Settings, shared: Limiter,
                   back: map<Limiter, LimiterKey>, ks: set<LimiterKey>, m0: map<LimiterKey, Limiter>, k: LimiterKey)
    requires Progress(m, opt, s, shared, back, ks, m0)
    requires Shared(opt, k) && shared.Built(s.download, s.upload, s.timeout) && shared !in m0.Values
    ensures Progress(m[k := shared], opt, s, shared, back, ks + {k}, m0)
  {
    var m' := m[k := shared];
    forall k' | k' in ks + {k}
      ensures BoundAs(m', opt, s, shared, back, k')
    {
      if k' != k {
        assert BoundAs(m, opt, s, shared, back, k');
      }
    }
  }

  /** One round of the name loop of createLimiter, binding a name to a limiter of its own. */
  lemma StepOwn(m: map<LimiterKey, Limiter>, opt: LimiterOption, s: Settings, shared: Limiter?,
                back: map<Limiter, LimiterKey>, ks: set<LimiterKey>, m0: map<LimiterKey, Limiter>,
                start: map<LimiterKey, Limiter>, prefix: Prefix, names: seq<string>, i: nat, l: Limiter)
    requires i < |names| && !Shared(opt, LimiterKey(prefix, names[i]))
    requires Progress(m, opt, s, shared, back, ks + NameKeys(prefix, names[..i]), m0)
    requires forall k | k in m && k !in NameKeys(prefix, names[..i]) :: k in start && m[k] == start[k]
    requires l.Built(s.download, s.upload, s.timeout) && l != shared && l !in m.Values && l !in m0.Values
    ensures var k := LimiterKey(prefix, names[i]);
            && Progress(m[k := l], opt, s, shared, back[l := k], ks + NameKeys(prefix, names[..i + 1]), m0)
            && forall k' | k' in m[k := l] && k' !in NameKeys(prefix, names[..i + 1]) :: k' in start && m[k := l][k'] == start[k']
  {
    var k := LimiterKey(prefix, names[i]);
    NameKeysStep(prefix, names, i);
    var done := ks + NameKeys(prefix, names[..i]);
    forall k' | k' in done
      ensures m[k'] != l
    {
      assert m[k'] in m.Values;
    }
    BindOwn(m, opt, s, shared, back, done, m0, k, l);
    assert done + {k} == ks + NameKeys(prefix, names[..i + 1]);
  }

  /** One round of the name loop of createLimiter, binding a name to the shared limiter. */
  lemma StepShared(m: map<LimiterKey, Limiter>, opt: LimiterOption, s: Settings, shared: Limiter,
                   back: map<Limiter, LimiterKey>, ks: set<LimiterKey>, m0: map<LimiterKey, Limiter>,
                   start: map<LimiterKey, Limiter>, prefix: Prefix, names: seq<string>, i: nat)
    requires i < |names| && Shared(opt, LimiterKey(prefix, names[i]))
    requires shared.Built(s.download, s.upload, s.timeout) && shared !in m0.Values
    requires Progress(m, opt, s, shared, back, ks + NameKeys(prefix, names[..i]), m0)
    requires forall k | k in m && k !in NameKeys(prefix, names[..i]) :: k in start && m[k] == start[k]
    ensures var k := LimiterKey(prefix, names[i]);
            && Progress(m[k := shared], opt, s, shared, back, ks + NameKeys(prefix, names[..i + 1]), m0)
            && forall k' | k' in m[k := shared] && k' !in NameKeys(prefix, names[..i + 1]) :: k' in start && m[k := shared][k'] == start[k']
  {
    var k := LimiterKey(prefix, names[i]);
    NameKeysStep(prefix, names, i);
    var done := ks + NameKeys(prefix, names[..i]);
    BindShared(m, opt, s, shared, back, done, m0, k);
    assert done + {k} == ks + NameKeys(prefix, names[..i + 1]);
  }

  /** The keys bound as BoundAs says alias exactly as FreshFor says. */
  lemma BoundKeysAlias(m: map<LimiterKey, Limiter>, opt: LimiterOption, s: Settings, shared: Limiter?,
                       back: map<Limiter, LimiterKey>, ks: set<LimiterKey>, m0: map<LimiterKey, Limiter>)
    requires Progress(m, opt, s, shared, back, ks, m0)
    ensures FreshFor(m, opt, s, ks)
  {
    forall k1, k2 | k1 in ks && k2 in ks
      ensures m[k1] == m[k2] <==> k1 == k2 || (Shared(opt, k1) && Shared(opt, k2))
    {
      assert BoundAs(m, opt, s, shared, back, k1);
      assert BoundAs(m, opt, s, shared, back, k2);
    }
    forall k | k in ks
      ensures m[k].Built(s.download, s.upload, s.timeout)
    {
      assert BoundAs(m, opt, s, shared, back, k);
    }
  }

  /**
   * What a successful createLimiter does to the map m0, giving m: the keys
   * of opt are added or overwritten, with limiters that were not in m0 and
   * alias as FreshFor says; every other key keeps its limiter.
   */
  ghost predicate Rebound(m0: map<LimiterKey, Limiter>, m: map<LimiterKey, Limiter>, opt: LimiterOption, s: Settings) {
    && m.Keys == m0.Keys + Keys(opt)
    && (forall k | k in m0 && k !in Keys(opt) :: m[k] == m0[k])
    && (forall k | k in Keys(opt) :: m[k] !in m0.Values)
    && FreshFor(m, opt, s, Keys(opt))
  }

  /** l is a limiter built from the settings of the accepted option opt. */
  ghost predicate BuiltFrom(l: Limiter, opt: LimiterOption, ps: Parsers) {
    var c := Check(opt, ps);
    c.Success? && l.Built(c.value.download, c.value.upload, c.value.timeout)
  }

  /**
   * The map WithDefault leaves after options: exactly the registered keys,
   * each with a limiter built from the option that owns it, two keys
   * sharing a limiter exactly when Aliased says so.
   */
  ghost predicate Installed(mp: map<LimiterKey, Limiter>, options: seq<LimiterOption>, ps: Parsers) {
    && mp.Keys == Registered(options, ps)
    && OwnersBuilt(mp, options, ps)
    && AliasingFollows(mp, options, ps)
  }

  /** Every key has an owner, and its limiter is built from it. */
  ghost predicate OwnersBuilt(mp: map<LimiterKey, Limiter>, options: seq<LimiterOption>, ps: Parsers) {
    forall k | k in mp :: OwnedBuilt(mp, options, ps, k)
  }

  /** Two keys share a limiter exactly when Aliased says so. */
  ghost predicate AliasingFollows(mp: map<LimiterKey, Limiter>, options: seq<LimiterOption>, ps: Parsers)
    requires OwnersBuilt(mp, options, ps)
  {
    forall k1, k2 | k1 in mp && k2 in mp :: mp[k1] == mp[k2] <==> Aliased(options, ps, k1, k2)
  }

  /** Appending option i decides the owner of the keys it claims, and no other. */
  lemma OwnerStep(options: seq<LimiterOption>, ps: Parsers, i: nat, k: LimiterKey)
    requires i < |options|
    ensures Owner(options[..i + 1], ps, k) == if Claims(options[i], ps, k) then Some(i) else Owner(options[..i], ps, k)
    ensures Registered(options[..i + 1], ps)
            == Registered(options[..i], ps) + (if Check(options[i], ps).Success? then Keys(options[i]) else {})
  {
    assert options[..i + 1][..i] == options[..i];
  }

  /** Key k's owner and limiter before option i, as Installed says. */
  ghost predicate OwnedBuilt(m: map<LimiterKey, Limiter>, options: seq<LimiterOption>, ps: Parsers, k: LimiterKey)
    requires k in m
  {
    Owner(options, ps, k).Some? && BuiltFrom(m[k], options[Owner(options, ps, k).value], ps)
  }

  /** A refused option i changes no key's owner. */
  lemma RefusedKeepsOwner(m: map<LimiterKey, Limiter>, options: seq<LimiterOption>, ps: Parsers, i: nat, k: LimiterKey)
    requires i < |options| && Check(options[i], ps).Failure?
    requires k in m && OwnedBuilt(m, options[..i], ps, k)
    ensures OwnedBuilt(m, options[..i + 1], ps, k)
  {
    OwnerStep(options, ps, i, k);
  }

  /** A refused option i keeps the aliasing of two keys. */
  lemma RefusedKeepsAliasing(options: seq<LimiterOption>, ps: Parsers, i: nat, k1: LimiterKey, k2: LimiterKey)
    requires i < |options| && Check(options[i], ps).Failure?
    requires Owner(options[..i], ps, k1).Some? && Owner(options[..i], ps, k2).Some?
    ensures Owner(options[..i + 1], ps, k1).Some? && Owner(options[..i + 1], ps, k2).Some?
    ensures Aliased(options[..i + 1], ps, k1, k2) == Aliased(options[..i], ps, k1, k2)
  {
    OwnerStep(options, ps, i, k1);
    OwnerStep(options, ps, i, k2);
  }

  /** A round of WithDefault whose createLimiter failed keeps Installed. */
  lemma InstallRefused(m: map<LimiterKey, Limiter>, options: seq<LimiterOption>, ps: Parsers, i: nat)
    requires i < |options| && Check(options[i], ps).Failure?
    requires Installed(m, options[..i], ps)
    ensures Installed(m, options[..i + 1], ps)
  {
    OwnerStep(options, ps, i, TagKey(""));
    RefusedOwners(m, options, ps, i);
    RefusedAliases(m, options, ps, i);
  }

  lemma RefusedOwners(m: map<LimiterKey, Limiter>, options: seq<LimiterOption>, ps: Parsers, i: nat)
    requires i < |options| && Check(options[i], ps).Failure?
    requires Installed(m, options[..i], ps)
    ensures OwnersBuilt(m, options[..i + 1], ps)
  {
    forall k | k in m
      ensures OwnedBuilt(m, options[..i + 1], ps, k)
    {
      assert OwnedBuilt(m, options[..i], ps, k);
      RefusedKeepsOwner(m, options, ps, i, k);
    }
  }

  lemma RefusedAliases(m: map<LimiterKey, Limiter>, options: seq<LimiterOption>, ps: Parsers, i: nat)
    requires i < |options| && Check(options[i], ps).Failure?
    requires Installed(m, options[..i], ps)
    requires OwnersBuilt(m, options[..i + 1], ps)
    ensures AliasingFollows(m, options[..i + 1], ps)
  {
    forall k1, k2 | k1 in m && k2 in m
      ensures Owner(options[..i + 1], ps, k1).Some? && Owner(options[..i + 1], ps, k2).Some?
      ensures m[k1] == m[k2] <==> Aliased(options[..i + 1], ps, k1, k2)
    {
      assert OwnedBuilt(m, options[..i], ps, k1) && OwnedBuilt(m, options[..i], ps, k2);
      RefusedKeepsAliasing(options, ps, i, k1, k2);
    }
  }

  /** After an accepted option i, key k's limiter is built from its owner. */
  lemma AcceptedOwner(m0: map<LimiterKey, Limiter>, m: map<LimiterKey, Limiter>, options: seq<LimiterOption>,
                      ps: Parsers, i: nat, k: LimiterKey)
    requires i < |options| && Check(options[i], ps).Success?
    requires Rebound(m0, m, options[i], Check(options[i], ps).value)
    requires k in m && (k !in Keys(options[i]) ==> k in m0 && OwnedBuilt(m0, options[..i], ps, k))
    ensures OwnedBuilt(m, options[..i + 1], ps, k)
  {
    OwnerStep(options, ps, i, k);
  }

  /** After an accepted option i, two keys share a limiter exactly as Aliased says. */
  lemma AcceptedAliasing(m0: map<LimiterKey, Limiter>, m: map<LimiterKey, Limiter>, options: seq<LimiterOption>,
                         ps: Parsers, i: nat, k1: LimiterKey, k2: LimiterKey)
    requires i < |options| && Check(options[i], ps).Success?
    requires Rebound(m0, m, options[i], Check(options[i], ps).value)
    requires k1 in m && (k1 !in Keys(options[i]) ==> k1 in m0 && Owner(options[..i], ps, k1).Some?)
    requires k2 in m && (k2 !in Keys(options[i]) ==> k2 in m0 && Owner(options[..i], ps, k2).Some?)
    requires k1 !in Keys(options[i]) && k2 !in Keys(options[i]) ==>
               (m0[k1] == m0[k2] <==> Aliased(options[..i], ps, k1, k2))
    ensures Owner(options[..i + 1], ps, k1).Some? && Owner(options[..i + 1], ps, k2).Some?
    ensures m[k1] == m[k2] <==> Aliased(options[..i + 1], ps, k1, k2)
  {
    var opt := options[i];
    OwnerStep(options, ps, i, k1);
    OwnerStep(options, ps, i, k2);
    if k1 in Keys(opt) && k2 !in Keys(opt) {
      assert m[k2] == m0[k2] && m0[k2] in m0.Values;
    } else if k1 !in Keys(opt) && k2 in Keys(opt) {
      assert m[k1] == m0[k1] && m0[k1] in m0.Values;
    } else if k1 !in Keys(opt) && k2 !in Keys(opt) {
      assert m[k1] == m0[k1] && m[k2] == m0[k2];
    }
  }

  /** A round of WithDefault whose createLimiter succeeded keeps Installed. */
  lemma InstallAccepted(m0: map<LimiterKey, Limiter>, m: map<LimiterKey, Limiter>, options: seq<LimiterOption>,
                        ps: Parsers, i: nat)
    requires i < |options| && Check(options[i], ps).Success?
    requires Installed(m0, options[..i], ps)
    requires Rebound(m0, m, options[i], Check(options[i], ps).value)
    ensures Installed(m, options[..i + 1], ps)
  {
    OwnerStep(options, ps, i, TagKey(""));
    AcceptedOwners(m0, m, options, ps, i);
    AcceptedAliases(m0, m, options, ps, i);
  }

  lemma AcceptedOwners(m0: map<LimiterKey, Limiter>, m: map<LimiterKey, Limiter>, options: seq<LimiterOption>,
                       ps: Parsers, i: nat)
    requires i < |options| && Check(options[i], ps).Success?
    requires Installed(m0, options[..i], ps)
    requires Rebound(m0, m, options[i], Check(options[i], ps).value)
    ensures OwnersBuilt(m, options[..i + 1], ps)
  {
    forall k | k in m
      ensures OwnedBuilt(m, options[..i + 1], ps, k)
    {
      if k !in Keys(options[i]) {
        assert OwnedBuilt(m0, options[..i], ps, k);
      }
      AcceptedOwner(m0, m, options, ps, i, k);
    }
  }

  lemma AcceptedAliases(m0: map<LimiterKey, Limiter>, m: map<LimiterKey, Limiter>, options: seq<LimiterOption>,
                        ps: Parsers, i: nat)
    requires i < |options| && Check(options[i], ps).Success?
    requires Installed(m0, options[..i], ps)
    requires Rebound(m0, m, options[i], Check(options[i], ps).value)
    requires OwnersBuilt(m, options[..i + 1], ps)
    ensures AliasingFollows(m, options[..i + 1], ps)
  {
    forall k1, k2 | k1 in m && k2 in m
      ensures m[k1] == m[k2] <==> Aliased(options[..i + 1], ps, k1, k2)
    {
      if k1 !in Keys(options[i]) {
        assert OwnedBuilt(m0, options[..i], ps, k1);
      }
      if k2 !in Keys(options[i]) {
        assert OwnedBuilt(m0, options[..i], ps, k2);
      }
      AcceptedAliasing(m0, m, options, ps, i, k1, k2);
    }
  }

  /** One round of WithDefault keeps Installed, whatever createLimiter answered. */
  lemma InstallStep(m0: map<LimiterKey, Limiter>, m: map<LimiterKey, Limiter>, options: seq<LimiterOption>,
                    ps: Parsers, i: nat, err: Option<ConfigError>)
    requires i < |options|
    requires Installed(m0, options[..i], ps)
    requires err == Outcome(options[i], ps)
    requires err.Some? ==> m == m0
    requires err.None? ==> Rebound(m0, m, options[i], Check(options[i], ps).value)
    ensures Installed(m, options[..i + 1], ps)
  {
    if Check(options[i], ps).Failure? {
      InstallRefused(m, options, ps, i);
    } else {
      InstallAccepted(m0, m, options, ps, i);
    }
  }

  /** defaultManager: the limiters by key. */
  class Manager {
    var mp: map<LimiterKey, Limiter>

    constructor ()
      ensures mp == map[]
    {
      mp := map[];
    }

    /**
     * createLimiter: on an error the map is unchanged; otherwise the keys
     * of opt are bound to new limiters built from its settings, the tag
     * key and the non-independent keys to one shared limiter, every other
     * key to a limiter of its own, and all other keys keep their limiters.
     */
    method CreateLimiter(opt: LimiterOption, ps: Parsers) returns (err: Option<ConfigError>)
      modifies this
      ensures err == Outcome(opt, ps)
      ensures err.Some? ==> mp == old(mp)
      ensures err.None? ==> Rebound(old(mp), mp, opt, Check(opt, ps).value)
    {
      var c := Check(opt, ps);
      if c.Failure? {
        return Some(c.error);
      }
      var s := c.value;
      var sharedLimiter: Limiter? := null;
      if opt.tag != "" || !opt.authUserIndependent || !opt.inboundIndependent {
        sharedLimiter := new Limiter(s.download, s.upload, s.timeout);
      }
      ghost var ks: set<LimiterKey> := {};
      ghost var back: map<Limiter, LimiterKey> := map[];
      if opt.tag != "" {
        BindShared(mp, opt, s, sharedLimiter, back, ks, old(mp), TagKey(opt.tag));
        mp := mp[TagKey(opt.tag) := sharedLimiter];
        ks := {TagKey(opt.tag)};
      }
      assert ks == TagKeys(opt);
      back := BindNames(opt, s, sharedLimiter, PrefixUser, opt.authUser, opt.authUserIndependent, back, ks, old(mp));
      ks := ks + NameKeys(PrefixUser, opt.authUser);
      back := BindNames(opt, s, sharedLimiter, PrefixInbound, opt.inbound, opt.inboundIndependent, back, ks, old(mp));
      BoundKeysAlias(mp, opt, s, sharedLimiter, back, Keys(opt), old(mp));
      err := None;
    }

    /**
     * The user loop and the inbound loop of createLimiter: each name gets
     * a limiter of its own when the names are independent and the shared
     * limiter otherwise; a name listed twice is bound twice.
     */
    method BindNames(opt: LimiterOption, s: Settings, shared: Limiter?, prefix: Prefix, names: seq<string>,
                     independent: bool, ghost back0: map<Limiter, LimiterKey>,
                     ghost ks: set<LimiterKey>, ghost m0: map<LimiterKey, Limiter>)
      returns (ghost back: map<Limiter, LimiterKey>)
      requires (prefix == PrefixUser && independent == opt.authUserIndependent)
               || (prefix == PrefixInbound && independent == opt.inboundIndependent)
      requires !independent ==> shared != null && shared.Built(s.download, s.upload, s.timeout) && shared !in m0.Values
      requires Progress(mp, opt, s, shared, back0, ks, m0)
      modifies this
      ensures Progress(mp, opt, s, shared, back, ks + NameKeys(prefix, names), m0)
      ensures forall k | k in mp && k !in NameKeys(prefix, names) :: k in old(mp) && mp[k] == old(mp)[k]
    {
      back := back0;
      for i := 0 to |names|
        invariant Progress(mp, opt, s, shared, back, ks + NameKeys(prefix, names[..i]), m0)
        invariant forall k | k in mp && k !in NameKeys(prefix, names[..i]) :: k in old(mp) && mp[k] == old(mp)[k]
      {
        var k := LimiterKey(prefix, names[i]);
        NameKeysStep(prefix, names, i);
        if independent {
          var l := new Limiter(s.download, s.upload, s.timeout);
          StepOwn(mp, opt, s, shared, back, ks, m0, old(mp), prefix, names, i, l);
          mp := mp[k := l];
          back := back[l := k];
        } else {
          StepShared(mp, opt, s, shared, back, ks, m0, old(mp), prefix, names, i);
          mp := mp[k := shared];
        }
      }
      assert names[..|names|] == names;
    }

    /**
     * The collection loop of NewConnWithLimiters and
     * NewPacketConnWithLimiters: the limiters of the rule's tags, then of
     * the user, then of the inbound, each one only if registered.
     */
    method CollectLimiters(metadata: Option<InboundContext>, rule: Option<Rule>) returns (ls: seq<Limiter>)
      ensures ls == Resolve(mp, metadata, rule)
    {
      ls := [];
      if rule.Some? {
        var tags := rule.value.limiters;
        for i := 0 to |tags|
          invariant ls == TagHits(mp, tags[..i])
        {
          assert tags[..i + 1][..i] == tags[..i];
          var k := TagKey(tags[i]);
          if k in mp {
            ls := ls + [mp[k]];
          }
        }
        assert tags[..|tags|] == tags;
      }
      if metadata.Some? {
        var user, inbound := UserKey(metadata.value.user), InboundKey(metadata.value.inbound);
        if user in mp {
          ls := ls + [mp[user]];
        }
        if inbound in mp {
          ls := ls + [mp[inbound]];
        }
      }
    }

    /**
     * NewConnWithLimiters: conn wrapped once per applying limiter, the
     * first one innermost.
     */
    method NewConnWithLimiters(conn: Conn, metadata: Option<InboundContext>, rule: Option<Rule>) returns (r: Conn)
      ensures WrappedBy(r, conn, Resolve(mp, metadata, rule))
    {
      var ls := CollectLimiters(metadata, rule);
      r := conn;
      for i := 0 to |ls|
        invariant WrappedBy(r, conn, ls[..i])
      {
        var w := new ConnWithLimiter(r, ls[i]);
        WrapOnce(r, conn, ls, i, w);
        r := Limited(w);
      }
      assert ls[..|ls|] == ls;
    }

    /**
     * NewPacketConnWithLimiters: conn wrapped once per applying limiter,
     * the first one innermost.
     */
    method NewPacketConnWithLimiters(conn: PacketConn, metadata: Option<InboundContext>, rule: Option<Rule>)
      returns (r: PacketConn)
      ensures PacketWrappedBy(r, conn, Resolve(mp, metadata, rule))
    {
      var ls := CollectLimiters(metadata, rule);
      r := conn;
      for i := 0 to |ls|
        invariant PacketWrappedBy(r, conn, ls[..i])
      {
        var w := new PacketConnWithLimiter(r, ls[i]);
        PacketWrapOnce(r, conn, ls, i, w);
        r := PacketLimited(w);
      }
      assert ls[..|ls|] == ls;
    }
  }

  /**
   * WithDefault: one createLimiter per option, in order; the outcome of
   * each is reported (the source logs it) and the option is skipped on an
   * error, so the manager ends up with Installed's map.
   */
  method WithDefault(options: seq<LimiterOption>, ps: Parsers) returns (m: Manager, outcomes: seq<Option<ConfigError>>)
    ensures |outcomes| == |options|
    ensures forall i | 0 <= i < |options| :: outcomes[i] == Outcome(options[i], ps)
    ensures Installed(m.mp, options, ps)
  {
    m := new Manager();
    outcomes := [];
    for i := 0 to |options|
      invariant outcomes == Outcomes(options[..i], ps)
      invariant Installed(m.mp, options[..i], ps)
    {
      ghost var before := m.mp;
      var err := m.CreateLimiter(options[i], ps);
      InstallStep(before, m.mp, options, ps, i, err);
      assert options[..i + 1][..i] == options[..i];
      outcomes := outcomes + [err];
    }
    assert options[..|options|] == options;
    OutcomesIndex(options, ps);
  }
}
