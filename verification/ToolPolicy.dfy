/** What a tool call of an expert may do without asking: a table of three tiers, how a step may change it, and
    the floor a user's own expert cannot go below. */
module ToolPolicy {
  import opened Prelude

  datatype Tier = Allow | Ask | Deny

  datatype Category = FileIn | FileOut | Command | Network | Unlisted

  datatype Table = Table(
    fileIn: Tier,
    fileOut: Tier,
    command: Tier,
    prefixes: seq<seq<string>>,     // commands let through although commands are asked about
    network: Tier,
    questions: bool,
    maxQuestions: nat)

  datatype Override = Override(
    fileIn: Option<Tier>,
    fileOut: Option<Tier>,
    command: Option<Tier>,
    prefixes: seq<seq<string>>,
    network: Option<Tier>,
    questions: Option<bool>,
    maxQuestions: Option<nat>)

  const PLATFORM := Table(Allow, Deny, Ask, [], Deny, true, 3)

  const LISTED: seq<Category> := [FileIn, FileOut, Command, Network]

  function Rank(t: Tier): nat {
    match t
    case Allow => 0
    case Ask => 1
    case Deny => 2
  }

  function TierOf(t: Table, c: Category): Tier {
    match c
    case FileIn => t.fileIn
    case FileOut => t.fileOut
    case Command => t.command
    case Network => t.network
    case Unlisted => Ask
  }

  function Wanted(o: Override, c: Category): Option<Tier> {
    match c
    case FileIn => o.fileIn
    case FileOut => o.fileOut
    case Command => o.command
    case Network => o.network
    case Unlisted => None
  }

  function WithTier(t: Table, c: Category, tier: Tier): Table {
    match c
    case FileIn => t.(fileIn := tier)
    case FileOut => t.(fileOut := tier)
    case Command => t.(command := tier)
    case Network => t.(network := tier)
    case Unlisted => t
  }

  // ---------- decisions ----------

  predicate PrefixMatches(prefix: seq<string>, tokens: seq<string>) {
    prefix != [] && prefix <= tokens
  }

  predicate SomeMatch(prefixes: seq<seq<string>>, tokens: seq<string>) {
    exists k :: 0 <= k < |prefixes| && PrefixMatches(prefixes[k], tokens)
  }

  /** Just after a refusal everything is asked about; a command that would be asked about goes through when
      it starts with a listed prefix. */
  function Decide(t: Table, c: Category, tokens: seq<string>, afterDecline: bool): Tier {
    if afterDecline then Ask
    else if c.Command? && t.command.Ask? && SomeMatch(t.prefixes, tokens) then Allow
    else TierOf(t, c)
  }

  /** What the table says of a category; of one it does not list it says nothing, and that is asked about. */
  predicate Says(t: Table, c: Category, tier: Tier) {
    || (c == FileIn && t.fileIn == tier) || (c == FileOut && t.fileOut == tier)
    || (c == Command && t.command == tier) || (c == Network && t.network == tier) || (c == Unlisted && tier == Ask)
  }

  /** Just after a refusal everything is asked about. Otherwise a call is denied exactly if the table denies its
      category, and let through exactly if the table allows it, or it is a command the table asks about that starts
      with a prefix the table lists. */
  lemma DecidesExactly(t: Table, c: Category, tokens: seq<string>, afterDecline: bool)
    ensures var d := Decide(t, c, tokens, afterDecline);
            && (afterDecline ==> d == Ask)
            && (!afterDecline ==>
                  && (d == Deny <==> Says(t, c, Deny))
                  && (d == Allow <==>
                        || Says(t, c, Allow)
                        || (&& c == Command && Says(t, c, Ask)
                            && exists prefix :: prefix in t.prefixes && 0 < |prefix| <= |tokens|
                                                && prefix == tokens[..|prefix|])))
  {
    if SomeMatch(t.prefixes, tokens) {
      var k :| 0 <= k < |t.prefixes| && PrefixMatches(t.prefixes[k], tokens);
      assert t.prefixes[k] in t.prefixes && t.prefixes[k] == tokens[..|t.prefixes[k]|];
    }
    if prefix :| prefix in t.prefixes && 0 < |prefix| <= |tokens| && prefix == tokens[..|prefix|] {
      var k :| 0 <= k < |t.prefixes| && t.prefixes[k] == prefix;
      assert PrefixMatches(t.prefixes[k], tokens);
    }
  }

  // ---------- merging ----------

  predicate Relaxes(base: Table, o: Override) {
    || (exists c: Category :: Wanted(o, c).Some? && Rank(Wanted(o, c).value) < Rank(TierOf(base, c)))
    || (o.questions == Some(true) && !base.questions)
    || (o.maxQuestions.Some? && o.maxQuestions.value > base.maxQuestions)
  }

  /** Nothing given keeps the base. Relaxing anything is refused; prefixes only add up. */
  function Merge(base: Table, over: Option<Override>): Option<Table> {
    if over.None? then Some(base)
    else
      var o := over.value;
      if Relaxes(base, o) then None
      else
        Some(Table(if o.fileIn.Some? then o.fileIn.value else base.fileIn,
                   if o.fileOut.Some? then o.fileOut.value else base.fileOut,
                   if o.command.Some? then o.command.value else base.command,
                   base.prefixes + o.prefixes,
                   if o.network.Some? then o.network.value else base.network,
                   if o.questions.Some? then o.questions.value else base.questions,
                   if o.maxQuestions.Some? then o.maxQuestions.value else base.maxQuestions))
  }

  /** Allowing is looser than asking, and asking than denying. */
  predicate Looser(a: Tier, b: Tier) {
    (a == Allow && b != Allow) || (a == Ask && b == Deny)
  }

  /** A given value is taken, anything else stays, and prefixes add up; a step that would loosen a tier, let questions
      in or ask more of them is refused, and no other. */
  lemma MergesExactly(base: Table, o: Override)
    ensures Merge(base, Some(o)).None?
       <==> || (o.fileIn.Some? && Looser(o.fileIn.value, base.fileIn))
            || (o.fileOut.Some? && Looser(o.fileOut.value, base.fileOut))
            || (o.command.Some? && Looser(o.command.value, base.command))
            || (o.network.Some? && Looser(o.network.value, base.network))
            || (o.questions == Some(true) && !base.questions)
            || (o.maxQuestions.Some? && o.maxQuestions.value > base.maxQuestions)
    ensures Merge(base, Some(o)).Some? ==>
              var m := Merge(base, Some(o)).value;
              && (if o.fileIn.Some? then o.fileIn == Some(m.fileIn) else m.fileIn == base.fileIn)
              && (if o.fileOut.Some? then o.fileOut == Some(m.fileOut) else m.fileOut == base.fileOut)
              && (if o.command.Some? then o.command == Some(m.command) else m.command == base.command)
              && (if o.network.Some? then o.network == Some(m.network) else m.network == base.network)
              && (if o.questions.Some? then o.questions == Some(m.questions) else m.questions == base.questions)
              && (if o.maxQuestions.Some? then o.maxQuestions == Some(m.maxQuestions)
                  else m.maxQuestions == base.maxQuestions)
              && forall tokens :: SomeMatch(m.prefixes, tokens) <==>
                                    SomeMatch(base.prefixes, tokens) || SomeMatch(o.prefixes, tokens)
    ensures Merge(base, None) == Some(base)
  {
    assert Wanted(o, FileIn) == o.fileIn && Wanted(o, FileOut) == o.fileOut;
    assert Wanted(o, Command) == o.command && Wanted(o, Network) == o.network && Wanted(o, Unlisted) == None;
    forall tokens
      ensures SomeMatch(base.prefixes + o.prefixes, tokens)
         <==> SomeMatch(base.prefixes, tokens) || SomeMatch(o.prefixes, tokens)
    {
      MatchesOneOf(base.prefixes, o.prefixes, tokens);
    }
  }

  /** The platform lets an expert write in its project, asks about commands, and keeps it off everything else. */
  lemma PlatformFloor(tokens: seq<string>)
    ensures Decide(PLATFORM, FileIn, tokens, false) == Allow && Decide(PLATFORM, Command, tokens, false) == Ask
    ensures Decide(PLATFORM, FileOut, tokens, false) == Deny && Decide(PLATFORM, Network, tokens, false) == Deny
    ensures PLATFORM.questions && PLATFORM.maxQuestions == 3
  {
  }

  function TiersFrom(base: Table, o: Override, k: nat): Table
    requires k <= |LISTED|
  {
    if k == 0 then base
    else
      var before := TiersFrom(base, o, k - 1);
      var want := Wanted(o, LISTED[k - 1]);
      if want.None? then before else WithTier(before, LISTED[k - 1], want.value)
  }

  lemma AllTiers(base: Table, o: Override)
    ensures TiersFrom(base, o, |LISTED|)
         == base.(fileIn := if o.fileIn.Some? then o.fileIn.value else base.fileIn,
                  fileOut := if o.fileOut.Some? then o.fileOut.value else base.fileOut,
                  command := if o.command.Some? then o.command.value else base.command,
                  network := if o.network.Some? then o.network.value else base.network)
  {
    assert TiersFrom(base, o, 0) == base && LISTED[0] == FileIn;
    var one := TiersFrom(base, o, 1);
    assert one == base.(fileIn := if o.fileIn.Some? then o.fileIn.value else base.fileIn);
    var two := TiersFrom(base, o, 2);
    assert two == one.(fileOut := if o.fileOut.Some? then o.fileOut.value else base.fileOut);
    var three := TiersFrom(base, o, 3);
    assert three == two.(command := if o.command.Some? then o.command.value else base.command);
  }

  method MergePolicy(base: Table, over: Option<Override>) returns (r: Option<Table>)
    ensures r == Merge(base, over)
  {
    if over.None? { return Some(base); }
    var o := over.value;
    var fields := base;
    for k := 0 to |LISTED|
      invariant fields == TiersFrom(base, o, k)
      invariant forall j :: 0 <= j < k && Wanted(o, LISTED[j]).Some? ==>
                  Rank(Wanted(o, LISTED[j]).value) >= Rank(TierOf(base, LISTED[j]))
    {
      var want := Wanted(o, LISTED[k]);
      if want.Some? {
        if Rank(want.value) < Rank(TierOf(base, LISTED[k])) { return None; }
        fields := WithTier(fields, LISTED[k], want.value);
      }
    }
    forall c: Category | Wanted(o, c).Some? ensures Rank(Wanted(o, c).value) >= Rank(TierOf(base, c)) {
      assert c == LISTED[0] || c == LISTED[1] || c == LISTED[2] || c == LISTED[3];
    }
    AllTiers(base, o);
    if o.questions.Some? {
      if !base.questions && o.questions.value { return None; }
      fields := fields.(questions := o.questions.value);
    }
    if o.maxQuestions.Some? {
      if o.maxQuestions.value > base.maxQuestions { return None; }
      fields := fields.(maxQuestions := o.maxQuestions.value);
    }
    if o.prefixes != [] {
      fields := fields.(prefixes := base.prefixes + o.prefixes);
    }
    assert base.prefixes + [] == base.prefixes;
    return Some(fields);
  }

  lemma MergedTier(base: Table, o: Override, c: Category)
    requires Merge(base, Some(o)).Some?
    ensures Rank(TierOf(Merge(base, Some(o)).value, c)) >= Rank(TierOf(base, c))
  {
    assert Wanted(o, c).Some? ==> Rank(Wanted(o, c).value) >= Rank(TierOf(base, c));
  }

  lemma MatchesOneOf(a: seq<seq<string>>, b: seq<seq<string>>, tokens: seq<string>)
    ensures SomeMatch(a + b, tokens) <==> SomeMatch(a, tokens) || SomeMatch(b, tokens)
  {
    if SomeMatch(a, tokens) {
      var k :| 0 <= k < |a| && PrefixMatches(a[k], tokens);
      assert (a + b)[k] == a[k];
    }
    if SomeMatch(b, tokens) {
      var k :| 0 <= k < |b| && PrefixMatches(b[k], tokens);
      assert (a + b)[|a| + k] == b[k];
    }
    if SomeMatch(a + b, tokens) {
      var k :| 0 <= k < |a + b| && PrefixMatches((a + b)[k], tokens);
      if k < |a| {
        assert (a + b)[k] == a[k];
      } else {
        assert (a + b)[k] == b[k - |a|];
      }
    }
  }

  /** A step makes a decision looser than its pack's in one case only: a command the merged table asks about,
      that the pack's prefixes do not let through, and that starts with a prefix the step added. */
  lemma StepLoosensOnlyByPrefix(base: Table, o: Override, c: Category, tokens: seq<string>, afterDecline: bool)
    requires Merge(base, Some(o)).Some?
    ensures var merged := Merge(base, Some(o)).value;
            Rank(Decide(merged, c, tokens, afterDecline)) < Rank(Decide(base, c, tokens, afterDecline))
            <==> && !afterDecline && c.Command? && base.command.Ask? && merged.command.Ask?
                 && !SomeMatch(base.prefixes, tokens) && SomeMatch(o.prefixes, tokens)
  {
    MergedTier(base, o, c);
    MatchesOneOf(base.prefixes, o.prefixes, tokens);
  }

  // ---------- a user's own expert ----------

  datatype OwnStep = OwnStep(over: Option<Override>, tools: set<string>)

  datatype OwnPack = OwnPack(version: string, table: Table, steps: seq<OwnStep>, requiresTools: bool)

  /** What a manifest brings as its pack. */
  datatype RawPack = Missing | Malformed | Shaped(pack: OwnPack)

  datatype Manifest = Manifest(
    schema: Option<string>, runtime: Option<string>, version: Option<string>, pack: RawPack)

  const MANIFEST_SCHEMA := "knowbot-manifest/v1"
  const RUNTIME := "knowbench"

  const OWN_TOOLS: set<string> := {"list_my_data", "read_my_data"}

  datatype Problem =
    | NoManifest | WrongSchema | WrongRuntime | WrongVersion | NoPack | InvalidPack | WrongPackVersion
    | LooserTier(category: Category) | LooserQuestions | MoreQuestions | OwnPrefixes
    | StepPrefixes(step: nat) | StepTools(step: nat) | PlatformData

  /** Every place where a table is looser than the platform's. */
  method LooserThanPlatform(t: Table) returns (problems: seq<Problem>)
    ensures problems == [] <==>
              && (forall c: Category :: Rank(TierOf(t, c)) >= Rank(TierOf(PLATFORM, c)))
              && t.maxQuestions <= PLATFORM.maxQuestions && t.prefixes == []
  {
    problems := [];
    for k := 0 to |LISTED|
      invariant problems == [] <==>
                forall j :: 0 <= j < k ==> Rank(TierOf(t, LISTED[j])) >= Rank(TierOf(PLATFORM, LISTED[j]))
    {
      if Rank(TierOf(t, LISTED[k])) < Rank(TierOf(PLATFORM, LISTED[k])) {
        problems := problems + [LooserTier(LISTED[k])];
      }
    }
    if problems == [] {
      forall c: Category ensures Rank(TierOf(t, c)) >= Rank(TierOf(PLATFORM, c)) {
        assert c.Unlisted? || c == LISTED[0] || c == LISTED[1] || c == LISTED[2] || c == LISTED[3];
      }
    }
    if !PLATFORM.questions && t.questions {
      problems := problems + [LooserQuestions];
    }
    if t.maxQuestions > PLATFORM.maxQuestions {
      problems := problems + [MoreQuestions];
    }
    if t.prefixes != [] {
      problems := problems + [OwnPrefixes];
    }
  }

  predicate StepAllowed(s: OwnStep) {
    (s.over.Some? ==> s.over.value.prefixes == []) && s.tools <= OWN_TOOLS
  }

  /** What an expert has to be to run as one of a user's own. */
  predicate PackAcceptable(pack: OwnPack, version: string) {
    && pack.version == version && !pack.requiresTools
    && (forall k :: 0 <= k < |pack.steps| ==> Merge(pack.table, pack.steps[k].over).Some?)
    && (forall c: Category :: Rank(TierOf(pack.table, c)) >= Rank(TierOf(PLATFORM, c)))
    && pack.table.maxQuestions <= PLATFORM.maxQuestions && pack.table.prefixes == []
    && forall k :: 0 <= k < |pack.steps| ==> StepAllowed(pack.steps[k])
  }

  /** What a manifest has to be to be accepted as the version that was summoned. */
  predicate Acceptable(m: Option<Manifest>, version: string) {
    && m.Some? && m.value.schema == Some(MANIFEST_SCHEMA) && m.value.runtime == Some(RUNTIME)
    && m.value.version == Some(version) && m.value.pack.Shaped? && PackAcceptable(m.value.pack.pack, version)
  }

  /** Every problem with the outside of a manifest. */
  method Outside(m: Manifest, version: string) returns (problems: seq<Problem>)
    ensures problems == [] <==> && m.schema == Some(MANIFEST_SCHEMA) && m.runtime == Some(RUNTIME)
                                && m.version == Some(version) && !m.pack.Missing?
  {
    problems := [];
    if m.schema != Some(MANIFEST_SCHEMA) { problems := problems + [WrongSchema]; }
    if m.runtime != Some(RUNTIME) { problems := problems + [WrongRuntime]; }
    if m.version != Some(version) { problems := problems + [WrongVersion]; }
    if m.pack.Missing? { problems := problems + [NoPack]; }
  }

  /** No step loosens its pack. */
  method StepsOnlyStricter(pack: OwnPack) returns (ok: bool)
    ensures ok <==> forall k :: 0 <= k < |pack.steps| ==> Merge(pack.table, pack.steps[k].over).Some?
  {
    for k := 0 to |pack.steps|
      invariant forall j :: 0 <= j < k ==> Merge(pack.table, pack.steps[j].over).Some?
    {
      var merged := MergePolicy(pack.table, pack.steps[k].over);
      if merged.None? { return false; }
    }
    return true;
  }

  /** The pack of a manifest, or every problem found with it. */
  method PackFromManifest(m: Option<Manifest>, version: string) returns (pack: Option<OwnPack>, problems: seq<Problem>)
    ensures pack.Some? <==> Acceptable(m, version)
    ensures pack.Some? ==> pack.value == m.value.pack.pack
    ensures pack.Some? <==> problems == []
  {
    hide Merge, Rank, TierOf;
    pack := None;
    if m.None? { return None, [NoManifest]; }
    problems := Outside(m.value, version);
    if problems != [] { return; }
    if m.value.pack.Malformed? { return None, [InvalidPack]; }
    var own := m.value.pack.pack;
    var stricter := StepsOnlyStricter(own);
    if !stricter { return None, [InvalidPack]; }
    if own.version != version { problems := problems + [WrongPackVersion]; }
    var looser := LooserThanPlatform(own.table);
    problems := problems + looser;
    ghost var soFar := problems;
    for k := 0 to |own.steps|
      invariant problems == [] <==> soFar == [] && forall j :: 0 <= j < k ==> StepAllowed(own.steps[j])
    {
      var s := own.steps[k];
      if s.over.Some? && s.over.value.prefixes != [] {
        problems := problems + [StepPrefixes(k)];
      }
      if s.tools - OWN_TOOLS != {} {
        problems := problems + [StepTools(k)];
      }
    }
    if own.requiresTools { problems := problems + [PlatformData]; }
    if problems == [] { pack := Some(own); }
  }

  /** The table a step of an accepted expert runs under, or the pack's own between steps. */
  function PolicyFor(pack: OwnPack, step: Option<nat>): Option<Table> {
    if step.Some? && step.value < |pack.steps| then Merge(pack.table, pack.steps[step.value].over) else Some(pack.table)
  }

  /** Whatever an accepted expert of a user's own does, in any step, it is never let through where the platform
      by itself would have asked, nor asked about where the platform would have refused. */
  lemma NeverBelowThePlatform(m: Option<Manifest>, version: string, step: Option<nat>, c: Category,
                              tokens: seq<string>, afterDecline: bool)
    requires Acceptable(m, version)
    ensures var policy := PolicyFor(m.value.pack.pack, step);
            && policy.Some? && policy.value.maxQuestions <= PLATFORM.maxQuestions
            && Rank(Decide(policy.value, c, tokens, afterDecline)) >= Rank(Decide(PLATFORM, c, tokens, afterDecline))
  {
    var pack := m.value.pack.pack;
    if step.Some? && step.value < |pack.steps| && pack.steps[step.value].over.Some? {
      var o := pack.steps[step.value].over.value;
      assert StepAllowed(pack.steps[step.value]) && Merge(pack.table, pack.steps[step.value].over).Some?;
      MergedTier(pack.table, o, c);
      MergedTier(pack.table, o, Command);
    }
    assert Rank(TierOf(pack.table, c)) >= Rank(TierOf(PLATFORM, c));
  }

  /** A manifest is accepted if and only if it is of the one schema and runtime, it and its pack are of the version that
      was summoned, no call is treated more loosely than the platform treats it, no more questions are let in, commands
      are let through by no prefix, and every step keeps to its pack, to the user's own two tools and to no platform
      data. */
  lemma AcceptedExactly(m: Manifest, version: string)
    ensures Acceptable(Some(m), version)
       <==> && m.schema == Some("knowbot-manifest/v1") && m.runtime == Some("knowbench") && m.version == Some(version)
            && m.pack.Shaped?
            && var pack := m.pack.pack;
            && pack.version == version && !pack.requiresTools
            && (forall c: Category, tokens ::
                  !Looser(Decide(pack.table, c, tokens, false), Decide(PLATFORM, c, tokens, false)))
            && pack.table.maxQuestions <= 3 && pack.table.prefixes == []
            && forall k :: 0 <= k < |pack.steps| ==>
                             && PolicyFor(pack, Some(k)).Some?
                             && (pack.steps[k].over.Some? ==> pack.steps[k].over.value.prefixes == [])
                             && forall tool :: tool in pack.steps[k].tools ==> tool in ["list_my_data", "read_my_data"]
    ensures !Acceptable(None, version)
  {
    if m.pack.Shaped? {
      var pack := m.pack.pack;
      forall k | 0 <= k < |pack.steps|
        ensures PolicyFor(pack, Some(k)) == Merge(pack.table, pack.steps[k].over)
      {
      }
      if pack.table.prefixes == [] {
        forall c: Category, tokens: seq<string>
          ensures Looser(Decide(pack.table, c, tokens, false), Decide(PLATFORM, c, tokens, false))
             <==> Rank(TierOf(pack.table, c)) < Rank(TierOf(PLATFORM, c))
        {
        }
        forall c: Category | forall tokens ::
                               !Looser(Decide(pack.table, c, tokens, false), Decide(PLATFORM, c, tokens, false))
          ensures Rank(TierOf(pack.table, c)) >= Rank(TierOf(PLATFORM, c))
        {
          assert !Looser(Decide(pack.table, c, [], false), Decide(PLATFORM, c, [], false));
        }
      }
    }
  }

  // ---------- "for this whole task" ----------

  datatype Grant = Grant(category: Category, prefix: Option<seq<string>>)

  /** A command is remembered by its program and first argument, anything else by its category. */
  function GrantOf(c: Category, tokens: seq<string>): Grant {
    Grant(c, if !c.Command? then None else if |tokens| <= 2 then Some(tokens) else Some(tokens[..2]))
  }

  predicate GrantMatches(g: Grant, c: Category, tokens: seq<string>) {
    && g.category == c
    && (!c.Command? || (g.prefix.Some? && g.prefix.value != [] && PrefixMatches(g.prefix.value, tokens)))
  }

  /** What the user allowed for the task covers the very request they saw, and of commands only those with the
      same program and, if there was one, the same first argument. An empty command is never covered. */
  lemma GrantCoversItsLikes(c: Category, seen: seq<string>, tokens: seq<string>)
    ensures GrantMatches(GrantOf(c, seen), c, seen) <==> !c.Command? || seen != []
    ensures c.Command? ==>
              (GrantMatches(GrantOf(c, seen), c, tokens) <==>
                 && seen != [] && |tokens| >= 1 && tokens[0] == seen[0]
                 && (|seen| >= 2 ==> |tokens| >= 2 && tokens[1] == seen[1]))
    ensures forall d: Category :: d != c ==> !GrantMatches(GrantOf(c, seen), d, tokens)
  {
    if c.Command? && |seen| > 2 {
      assert seen[..2] <= seen;
    }
  }
}
