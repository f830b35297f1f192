/** The owner's answers to a scan's questions, and when they are complete
    (MigrationProjection.ts, exactlyOne to isAllowedAttachmentCorrection). */
module JiraConfiguration {
  import opened Wrappers

  datatype IdentityChoice = IdentityChoice(jiraAccountId: string, projectUserId: Option<string>)
  datatype StatusChoice = StatusChoice(jiraStatusId: string, projectStatusSlug: string, createStatus: bool)
  datatype TypeChoice = TypeChoice(jiraIssueTypeId: string, projectType: string)
  datatype PriorityChoice = PriorityChoice(jiraPriorityId: string, projectPriority: string)
  datatype TagKind = Label | Component
  datatype TagSource = TagSource(kind: TagKind, value: string)
  datatype TagChoice = TagChoice(source: TagSource, destinationTagName: string)
  datatype SprintChoice = SprintChoice(jiraIssueId: string, jiraSprintId: Option<string>)
  datatype RestrictedPolicy = Exclude | IncludeDisclosed

  datatype Configuration = Configuration(
    destination: string,
    identities: seq<IdentityChoice>,
    statuses: seq<StatusChoice>,
    issueTypes: seq<TypeChoice>,
    priorities: seq<PriorityChoice>,
    tags: seq<TagChoice>,
    sprintChoices: seq<SprintChoice>,
    restrictedContent: Option<RestrictedPolicy>,
    skippedAttachmentIds: seq<string>,
    attachmentSkipsAccepted: bool)

  datatype RequiredStatus = RequiredStatus(jiraStatusId: string, createOption: Option<string>)
  datatype RequiredSprint = RequiredSprint(jiraIssueId: string, options: seq<string>)
  datatype RequiredAttachment = RequiredAttachment(jiraAttachmentId: string, forcedSkipReason: Option<string>)

  datatype Requirements = Requirements(
    identities: seq<string>,
    identityOptions: seq<string>,
    statuses: seq<RequiredStatus>,
    statusOptions: seq<string>,
    issueTypes: seq<string>,
    priorities: seq<string>,
    tags: seq<TagSource>,
    sprintChoices: seq<RequiredSprint>,
    attachments: seq<RequiredAttachment>)

  function Map<A, B>(xs: seq<A>, f: A -> B): (ys: seq<B>)
    ensures |ys| == |xs|
    ensures forall i :: 0 <= i < |xs| ==> ys[i] == f(xs[i])
  {
    seq(|xs|, i requires 0 <= i < |xs| => f(xs[i]))
  }

  function TagKey(source: TagSource): string {
    (if source.kind.Label? then "label" else "component") + ":" + source.value
  }

  function AccountOf(x: IdentityChoice): string { x.jiraAccountId }
  function StatusOf(x: StatusChoice): string { x.jiraStatusId }
  function StatusAsked(x: RequiredStatus): string { x.jiraStatusId }
  function TypeOf(x: TypeChoice): string { x.jiraIssueTypeId }
  function PriorityOf(x: PriorityChoice): string { x.jiraPriorityId }
  function SprintIssueOf(x: SprintChoice): string { x.jiraIssueId }
  function SprintIssueAsked(x: RequiredSprint): string { x.jiraIssueId }
  function TagKeyOf(x: TagChoice): string { TagKey(x.source) }

  /** As many different keys as required keys, and every required key exactly once. */
  predicate ExactlyOneOf(keys: seq<string>, required: seq<string>) {
    && |set k | k in keys| == |required|
    && forall r | r in required :: multiset(keys)[r] == 1
  }

  method ExactlyOne<A>(values: seq<A>, key: A -> string, required: seq<string>) returns (ok: bool)
    ensures ok <==> ExactlyOneOf(Map(values, key), required)
  {
    ghost var keys := Map(values, key);
    var counts: map<string, nat> := map[];
    for i := 0 to |values|
      invariant counts.Keys == set k | k in keys[..i]
      invariant forall k | k in counts :: counts[k] == multiset(keys[..i])[k]
    {
      var itemKey := key(values[i]);
      assert keys[..i + 1] == keys[..i] + [itemKey];
      counts := counts[itemKey := (if itemKey in counts then counts[itemKey] else 0) + 1];
    }
    assert keys[..|values|] == keys;
    assert |counts| == |counts.Keys|;
    var everyOnce := EveryCountIsOne(counts, required);
    forall r | r in required ensures (r in counts && counts[r] == 1) == (multiset(keys)[r] == 1) {
      assert r in keys <==> r in multiset(keys);
    }
    ok := |counts| == |required| && everyOnce;
  }

  method EveryCountIsOne(counts: map<string, nat>, required: seq<string>) returns (ok: bool)
    ensures ok <==> forall r | r in required :: r in counts && counts[r] == 1
  {
    for i := 0 to |required|
      invariant forall r | r in required[..i] :: r in counts && counts[r] == 1
    {
      if !(required[i] in counts && counts[required[i]] == 1) {
        return false;
      }
    }
    return true;
  }

  function FirstSprint(required: seq<RequiredSprint>, jiraIssueId: string): Option<RequiredSprint> {
    if required == [] then None
    else if required[0].jiraIssueId == jiraIssueId then Some(required[0])
    else FirstSprint(required[1..], jiraIssueId)
  }

  predicate IdentitiesValid(c: Configuration, r: Requirements) {
    && ExactlyOneOf(Map(c.identities, AccountOf), r.identities)
    && forall x | x in c.identities :: x.projectUserId.None? || x.projectUserId.value in r.identityOptions
  }

  predicate StatusesValid(c: Configuration, r: Requirements) {
    && ExactlyOneOf(Map(c.statuses, StatusOf),
                    Map(r.statuses, StatusAsked))
    && forall x | x in c.statuses ::
         if x.createStatus
         then RequiredStatus(x.jiraStatusId, Some(x.projectStatusSlug)) in r.statuses
         else x.projectStatusSlug in r.statusOptions
  }

  predicate SprintsValid(c: Configuration, r: Requirements) {
    && ExactlyOneOf(Map(c.sprintChoices, SprintIssueOf),
                    Map(r.sprintChoices, SprintIssueAsked))
    && forall x | x in c.sprintChoices ::
         x.jiraSprintId.None?
         || (var found := FirstSprint(r.sprintChoices, x.jiraIssueId);
             found.Some? && x.jiraSprintId.value in found.value.options)
  }

  predicate AttachmentsValid(c: Configuration, r: Requirements) {
    && Distinct(c.skippedAttachmentIds)
    && (forall id | id in c.skippedAttachmentIds :: exists a | a in r.attachments :: a.jiraAttachmentId == id)
    && (forall a | a in r.attachments && a.forcedSkipReason.Some? :: a.jiraAttachmentId in c.skippedAttachmentIds)
    && (c.skippedAttachmentIds == [] || c.attachmentSkipsAccepted)
  }

  /** isCompleteJiraConfiguration */
  predicate IsComplete(c: Configuration, r: Requirements) {
    && IdentitiesValid(c, r)
    && StatusesValid(c, r)
    && ExactlyOneOf(Map(c.issueTypes, TypeOf), r.issueTypes)
    && ExactlyOneOf(Map(c.priorities, PriorityOf), r.priorities)
    && ExactlyOneOf(Map(c.tags, TagKeyOf), Map(r.tags, TagKey))
    && SprintsValid(c, r)
    && c.restrictedContent.Some?
    && AttachmentsValid(c, r)
  }

  /** isAllowedAttachmentCorrection */
  predicate IsAllowedCorrection(accepted: Configuration, c: Configuration, unresolved: seq<string>) {
    && accepted == c.(skippedAttachmentIds := accepted.skippedAttachmentIds,
                      attachmentSkipsAccepted := accepted.attachmentSkipsAccepted)
    && c.attachmentSkipsAccepted
    && (forall id | id in accepted.skippedAttachmentIds :: id in c.skippedAttachmentIds)
    && (forall id | id in c.skippedAttachmentIds :: id in accepted.skippedAttachmentIds || id in unresolved)
  }

  // ---------- what "exactly one" means ----------

  lemma SizeOfKeys(keys: seq<string>)
    ensures |set k | k in keys| <= |keys|
    ensures |set k | k in keys| == |keys| <==> Distinct(keys)
  {
    if keys != [] {
      var last := keys[|keys| - 1];
      var front := keys[..|keys| - 1];
      SizeOfKeys(front);
      assert keys == front + [last];
      assert (set k | k in keys) == (set k | k in front) + {last};
      if last in front {
        assert (set k | k in keys) == set k | k in front;
      } else {
        assert Distinct(keys) <==> Distinct(front);
      }
    }
  }

  lemma EqualSizeSubset<T>(a: set<T>, b: set<T>)
    requires a <= b && |a| == |b|
    ensures a == b
  {
    assert b == a + (b - a) && |b| == |a| + |b - a|;
    forall x | x in b ensures x in a {
      assert x !in a ==> x in b - a;
    }
  }

  /** For required keys without repetition, ExactlyOneOf says that the answers are a
      permutation of them: nothing missing, nothing twice, nothing that was not asked. */
  lemma ExactlyOneIsPermutation(keys: seq<string>, required: seq<string>)
    requires Distinct(required)
    ensures ExactlyOneOf(keys, required) <==> multiset(keys) == multiset(required)
  {
    SizeOfKeys(required);
    var have, want := set k | k in keys, set k | k in required;
    if ExactlyOneOf(keys, required) {
      assert forall r | r in required :: r in multiset(keys) && r in keys;
      assert want <= have;
      EqualSizeSubset(want, have);
      forall k ensures multiset(keys)[k] == multiset(required)[k] {
        DistinctCounts(required, k);
        if k in have {
          assert k in want;
        } else {
          assert k !in multiset(keys);
        }
      }
    }
    if multiset(keys) == multiset(required) {
      forall k ensures k in have <==> k in want {
        assert k in multiset(keys) <==> k in multiset(required);
      }
      assert have == want;
      forall r | r in required ensures multiset(keys)[r] == 1 {
        DistinctCounts(required, r);
      }
    }
  }

  /** With a repeated required key the check and "is a permutation" part ways: they can
      never both hold, so whenever the check accepts, some answer was never asked for. */
  lemma RepeatedRequirementBreaksExactlyOne(keys: seq<string>, required: seq<string>)
    requires !Distinct(required)
    ensures !(ExactlyOneOf(keys, required) && multiset(keys) == multiset(required))
    ensures ExactlyOneOf(keys, required) ==> exists k :: k in keys && k !in required
  {
    var i, j :| 0 <= i < j < |required| && required[i] == required[j];
    if multiset(keys) == multiset(required) {
      var front := required[..j];
      assert required == front + required[j..];
      assert required[i] == front[i] && required[j] in required[j..];
      assert multiset(required)[required[j]] >= 2;
      assert required[j] in required;
    }
    if ExactlyOneOf(keys, required) && forall k :: k in keys ==> k in required {
      SizeOfKeys(required);
      var have, want := set k | k in keys, set k | k in required;
      assert have <= want;
      SubsetSize(have, want);
      assert false;
    }
  }

  lemma SubsetSize<T>(a: set<T>, b: set<T>)
    requires a <= b
    ensures |a| <= |b|
  {
    assert b == a + (b - a);
  }

  /** The accepted-twice answer made concrete: two answers, one of them never asked for. */
  lemma RepeatedRequirementWitness()
    ensures ExactlyOneOf(["a", "b"], ["a", "a"])
  {
    var keys := ["a", "b"];
    assert keys[0] == "a" && keys[1] == "b";
    assert "a" != "b" by { assert "a"[0] != "b"[0]; }
    assert (set k | k in keys) == {"a", "b"};
    assert multiset(keys) == multiset{"a", "b"};
  }

  /** The two tag kinds contain no colon, so equal tag keys are equal tag sources. */
  lemma TagKeyInjective(x: TagSource, y: TagSource)
    requires TagKey(x) == TagKey(y)
    ensures x == y
  {
    assert "label:"[0] == 'l' && "component:"[0] == 'c';
    assert TagKey(x)[0] == if x.kind.Label? then 'l' else 'c';
    assert TagKey(y)[0] == if y.kind.Label? then 'l' else 'c';
    var n := if x.kind.Label? then 6 else 10;
    assert TagKey(x)[n..] == x.value && TagKey(y)[n..] == y.value;
  }

  /** A complete configuration answers each question exactly once, whatever the list,
      provided the scan asked no question twice. */
  lemma CompleteAnswersEveryRequirement(c: Configuration, r: Requirements)
    requires IsComplete(c, r)
    requires Distinct(r.identities) && Distinct(Map(r.statuses, StatusAsked))
    requires Distinct(r.issueTypes) && Distinct(r.priorities) && Distinct(r.tags)
    requires Distinct(Map(r.sprintChoices, SprintIssueAsked))
    ensures multiset(Map(c.identities, AccountOf)) == multiset(r.identities)
    ensures multiset(Map(c.statuses, StatusOf))
         == multiset(Map(r.statuses, StatusAsked))
    ensures multiset(Map(c.issueTypes, TypeOf)) == multiset(r.issueTypes)
    ensures multiset(Map(c.priorities, PriorityOf)) == multiset(r.priorities)
    ensures multiset(Map(c.tags, TagKeyOf)) == multiset(Map(r.tags, TagKey))
    ensures multiset(Map(c.sprintChoices, SprintIssueOf))
         == multiset(Map(r.sprintChoices, SprintIssueAsked))
  {
    ExactlyOneIsPermutation(Map(c.identities, AccountOf), r.identities);
    ExactlyOneIsPermutation(Map(c.statuses, StatusOf),
                            Map(r.statuses, StatusAsked));
    ExactlyOneIsPermutation(Map(c.issueTypes, TypeOf), r.issueTypes);
    ExactlyOneIsPermutation(Map(c.priorities, PriorityOf), r.priorities);
    forall i, j | 0 <= i < j < |r.tags| ensures TagKey(r.tags[i]) != TagKey(r.tags[j]) {
      if TagKey(r.tags[i]) == TagKey(r.tags[j]) {
        TagKeyInjective(r.tags[i], r.tags[j]);
      }
    }
    ExactlyOneIsPermutation(Map(c.tags, TagKeyOf), Map(r.tags, TagKey));
    ExactlyOneIsPermutation(Map(c.sprintChoices, SprintIssueOf),
                            Map(r.sprintChoices, SprintIssueAsked));
  }

  /** The answers are those asked for: one to each question and no other. Where a question is
      repeated, the check counts instead. */
  ghost predicate OneToEach(answers: seq<string>, questions: seq<string>) {
    if Distinct(questions) then multiset(answers) == multiset(questions)
    else |set a | a in answers| == |questions| && forall q | q in questions :: multiset(answers)[q] == 1
  }

  /** Every chosen user was offered. */
  ghost predicate UsersOffered(c: Configuration, r: Requirements) {
    forall i | 0 <= i < |c.identities| && c.identities[i].projectUserId.Some? ::
      c.identities[i].projectUserId.value in r.identityOptions
  }

  /** Every status is an offered one, or the one its question offers to create. */
  ghost predicate StatusesOffered(c: Configuration, r: Requirements) {
    forall i | 0 <= i < |c.statuses| ::
      if c.statuses[i].createStatus
      then exists j | 0 <= j < |r.statuses| ::
             r.statuses[j].jiraStatusId == c.statuses[i].jiraStatusId
             && r.statuses[j].createOption == Some(c.statuses[i].projectStatusSlug)
      else c.statuses[i].projectStatusSlug in r.statusOptions
  }

  /** The first question about an issue offers this sprint. */
  ghost predicate SprintOffered(required: seq<RequiredSprint>, issue: string, sprint: string) {
    exists j | 0 <= j < |required| ::
      required[j].jiraIssueId == issue && (forall k | 0 <= k < j :: required[k].jiraIssueId != issue)
      && sprint in required[j].options
  }

  ghost predicate SprintsOffered(c: Configuration, r: Requirements) {
    forall i | 0 <= i < |c.sprintChoices| && c.sprintChoices[i].jiraSprintId.Some? ::
      SprintOffered(r.sprintChoices, c.sprintChoices[i].jiraIssueId, c.sprintChoices[i].jiraSprintId.value)
  }

  ghost predicate AttachmentKnown(r: Requirements, id: string) {
    exists j | 0 <= j < |r.attachments| :: r.attachments[j].jiraAttachmentId == id
  }

  /** Skips are distinct and known, contain every forced one, and are accepted if there are any. */
  ghost predicate SkipsAllowed(c: Configuration, r: Requirements) {
    var skipped := c.skippedAttachmentIds;
    && (forall i, j | 0 <= i < j < |skipped| :: skipped[i] != skipped[j])
    && (forall i | 0 <= i < |skipped| :: AttachmentKnown(r, skipped[i]))
    && (forall j | 0 <= j < |r.attachments| && r.attachments[j].forcedSkipReason.Some? ::
          r.attachments[j].jiraAttachmentId in skipped)
    && (|skipped| > 0 ==> c.attachmentSkipsAccepted)
  }

  /** Everything the scan asked has an answer the scan allows. */
  ghost predicate AnswersAll(c: Configuration, r: Requirements) {
    && OneToEach(Map(c.identities, AccountOf), r.identities)
    && OneToEach(Map(c.statuses, StatusOf), Map(r.statuses, StatusAsked))
    && OneToEach(Map(c.issueTypes, TypeOf), r.issueTypes)
    && OneToEach(Map(c.priorities, PriorityOf), r.priorities)
    && OneToEach(Map(c.tags, TagKeyOf), Map(r.tags, TagKey))
    && OneToEach(Map(c.sprintChoices, SprintIssueOf), Map(r.sprintChoices, SprintIssueAsked))
    && UsersOffered(c, r) && StatusesOffered(c, r) && SprintsOffered(c, r)
    && c.restrictedContent.Some?
    && SkipsAllowed(c, r)
  }

  lemma OneToEachIff(answers: seq<string>, questions: seq<string>)
    ensures ExactlyOneOf(answers, questions) <==> OneToEach(answers, questions)
  {
    if Distinct(questions) {
      ExactlyOneIsPermutation(answers, questions);
    }
  }

  lemma {:induction false} FirstSprintIff(required: seq<RequiredSprint>, issue: string, sprint: string)
    ensures (FirstSprint(required, issue).Some? && sprint in FirstSprint(required, issue).value.options)
            <==> SprintOffered(required, issue, sprint)
  {
    if required != [] {
      var rest := required[1..];
      FirstSprintIff(rest, issue, sprint);
      if required[0].jiraIssueId != issue {
        if SprintOffered(rest, issue, sprint) {
          var j :| 0 <= j < |rest| && rest[j].jiraIssueId == issue
                   && (forall k | 0 <= k < j :: rest[k].jiraIssueId != issue) && sprint in rest[j].options;
          assert required[j + 1] == rest[j];
          assert forall k | 1 <= k < j + 1 :: required[k] == rest[k - 1];
        }
        if SprintOffered(required, issue, sprint) {
          var j :| 0 <= j < |required| && required[j].jiraIssueId == issue
                   && (forall k | 0 <= k < j :: required[k].jiraIssueId != issue) && sprint in required[j].options;
          assert rest[j - 1] == required[j];
          assert forall k | 0 <= k < j - 1 :: rest[k] == required[k + 1];
        }
      }
    }
  }

  lemma IdentitiesIff(c: Configuration, r: Requirements)
    ensures IdentitiesValid(c, r) <==> OneToEach(Map(c.identities, AccountOf), r.identities) && UsersOffered(c, r)
  {
    OneToEachIff(Map(c.identities, AccountOf), r.identities);
    hide ExactlyOneOf, OneToEach;
  }

  lemma StatusesIff(c: Configuration, r: Requirements)
    ensures StatusesValid(c, r) <==>
              OneToEach(Map(c.statuses, StatusOf), Map(r.statuses, StatusAsked)) && StatusesOffered(c, r)
  {
    OneToEachIff(Map(c.statuses, StatusOf), Map(r.statuses, StatusAsked));
    hide ExactlyOneOf, OneToEach;
    forall x | x in c.statuses
      ensures RequiredStatus(x.jiraStatusId, Some(x.projectStatusSlug)) in r.statuses <==>
                exists j | 0 <= j < |r.statuses| ::
                  r.statuses[j].jiraStatusId == x.jiraStatusId && r.statuses[j].createOption == Some(x.projectStatusSlug)
    {
      if j :| 0 <= j < |r.statuses| && r.statuses[j].jiraStatusId == x.jiraStatusId
              && r.statuses[j].createOption == Some(x.projectStatusSlug) {
        assert r.statuses[j] == RequiredStatus(x.jiraStatusId, Some(x.projectStatusSlug));
      }
    }
  }

  lemma SprintsIff(c: Configuration, r: Requirements)
    ensures SprintsValid(c, r) <==>
              OneToEach(Map(c.sprintChoices, SprintIssueOf), Map(r.sprintChoices, SprintIssueAsked)) && SprintsOffered(c, r)
  {
    OneToEachIff(Map(c.sprintChoices, SprintIssueOf), Map(r.sprintChoices, SprintIssueAsked));
    hide ExactlyOneOf, OneToEach, FirstSprint, SprintOffered;
    forall x | x in c.sprintChoices && x.jiraSprintId.Some?
      ensures (FirstSprint(r.sprintChoices, x.jiraIssueId).Some?
               && x.jiraSprintId.value in FirstSprint(r.sprintChoices, x.jiraIssueId).value.options)
              <==> SprintOffered(r.sprintChoices, x.jiraIssueId, x.jiraSprintId.value)
    {
      FirstSprintIff(r.sprintChoices, x.jiraIssueId, x.jiraSprintId.value);
    }
  }

  lemma KnownIff(r: Requirements, id: string)
    ensures (exists a | a in r.attachments :: a.jiraAttachmentId == id) <==> AttachmentKnown(r, id)
  {
    if a :| a in r.attachments && a.jiraAttachmentId == id {
      var j :| 0 <= j < |r.attachments| && r.attachments[j] == a;
      assert r.attachments[j].jiraAttachmentId == id;
    }
  }

  lemma AttachmentsIff(c: Configuration, r: Requirements)
    ensures AttachmentsValid(c, r) <==> SkipsAllowed(c, r)
  {
    forall id | id in c.skippedAttachmentIds
      ensures (exists a | a in r.attachments :: a.jiraAttachmentId == id) <==> AttachmentKnown(r, id)
    {
      KnownIff(r, id);
    }
    hide AttachmentKnown;
    assert (forall a | a in r.attachments && a.forcedSkipReason.Some? :: a.jiraAttachmentId in c.skippedAttachmentIds)
           <==> forall j | 0 <= j < |r.attachments| && r.attachments[j].forcedSkipReason.Some? ::
                  r.attachments[j].jiraAttachmentId in c.skippedAttachmentIds;
    assert (forall id | id in c.skippedAttachmentIds :: AttachmentKnown(r, id))
           <==> forall i | 0 <= i < |c.skippedAttachmentIds| :: AttachmentKnown(r, c.skippedAttachmentIds[i]);
  }

  /** A configuration is complete exactly when it answers everything the scan asked. */
  lemma CompleteIff(c: Configuration, r: Requirements)
    ensures IsComplete(c, r) <==> AnswersAll(c, r)
  {
    IdentitiesIff(c, r);
    StatusesIff(c, r);
    SprintsIff(c, r);
    AttachmentsIff(c, r);
    OneToEachIff(Map(c.issueTypes, TypeOf), r.issueTypes);
    OneToEachIff(Map(c.priorities, PriorityOf), r.priorities);
    OneToEachIff(Map(c.tags, TagKeyOf), Map(r.tags, TagKey));
    hide ExactlyOneOf, OneToEach, IdentitiesValid, StatusesValid, SprintsValid, AttachmentsValid, UsersOffered,
         StatusesOffered, SprintsOffered, SkipsAllowed;
  }

  /** Nothing but the skips differs; they are accepted, none is taken back, and each new one
      was unresolved. */
  ghost predicate OnlySkips(a: Configuration, c: Configuration, unresolved: seq<string>) {
    && c.destination == a.destination && c.identities == a.identities && c.statuses == a.statuses
    && c.issueTypes == a.issueTypes && c.priorities == a.priorities && c.tags == a.tags
    && c.sprintChoices == a.sprintChoices && c.restrictedContent == a.restrictedContent
    && c.attachmentSkipsAccepted
    && (forall i | 0 <= i < |a.skippedAttachmentIds| :: a.skippedAttachmentIds[i] in c.skippedAttachmentIds)
    && (forall i | 0 <= i < |c.skippedAttachmentIds| && c.skippedAttachmentIds[i] !in a.skippedAttachmentIds ::
          c.skippedAttachmentIds[i] in unresolved)
  }

  lemma CorrectionIff(a: Configuration, c: Configuration, unresolved: seq<string>)
    ensures IsAllowedCorrection(a, c, unresolved) <==> OnlySkips(a, c, unresolved)
  {
  }

  /** Corrections accumulate: skips only grow, everything else stays, and each addition was
      allowed by one of the two unresolved lists. */
  lemma CorrectionsCompose(a: Configuration, b: Configuration, c: Configuration, u: seq<string>, v: seq<string>)
    requires IsAllowedCorrection(a, b, u) && IsAllowedCorrection(b, c, v)
    ensures IsAllowedCorrection(a, c, u + v)
  {
  }
}
