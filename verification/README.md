# Verified model of the platform composition functions

The repository is a family of Crossplane composition functions. In every reconcile a function is called with the
resources that exist (*observed*) and the resources it asked to see (*required*), and answers with the resources
that should exist (*desired*). Crossplane then creates what is desired and missing, and deletes what exists and is
not desired. One call says little; what matters is what many calls do together with an environment that creates,
deletes, delays, and changes readiness, with AWS switching references, and with users editing specs.

The model takes one call as a *round* and lets anything happen between rounds that the environment can do. Most main
theorems are about all runs of such steps. `dafny verify dfyconfig.toml` checks the whole project.

| module | part of the repository |
|---|---|
| `NameCanonicaliser`, `Patterns` | the name normaliser, and its names used as anchored patterns |
| `TagInjection`, `TagSupportCache` | tag and label layers, and the concurrent cache of kinds that support tags |
| `Readiness`, `Sequencing`, `SequencingRuns`, `KindSequences`, `KindOrders` | readiness, the sequencing loops, their whole runs, the steps of each kind, and which kinds keep their order |
| `Requirements` | the discovery of required resources |
| `ParameterGroups` | the protocol that replaces parameter groups, over runs |
| `RdsNames`, `RdsInstances`, `RdsRuns`, `ValkeyInstances` | the two generators that use it, behind the sequencer |
| `BrokerConfigurations` | the replacement of RabbitMQ configurations |
| `LifecycleRules`, `LifecyclePolicies` | ECR lifecycle rules, and the replacement of lifecycle policies |
| `ForceSync`, `PasswordRotation` | the debounced force-sync annotation and the one-off password rotation |
| `JsonPointers`, `ZonePolicies` | the generated admission policies of a zone as one isolation argument |
| `Sorting`, `OciPlacements`, `RoleMappings` | node pool placement and role mappings, over Go's sort |
| `Wrappers` | `Option` and `Result` |

Loops and objects that the source updates in place are methods and classes here (`Sequencing.Composer`,
`TagInjection.Unstructured`, `RdsInstances.RdsInstanceGenerator`), each proved against a function of its inputs or
of the old state. What the source promises is then proved about those functions. Maps are iterated in an arbitrary
order, as Go does.

Things that turned out not to hold as one might expect, each with its exact condition:

- Steps are respected in every run exactly when no step without generated resources lies between two that have some
  (`SequencingRuns.OrderHoldsExactlyWithoutGaps`). Four kinds can have such a gap. A Valkey instance without a compute
  subnet that has a CIDR block gets its managed secret at once (`ValkeyInstances.OrderHoldsExactlyWithRules`). A
  PostgreSQL user without granted roles, or a MariaDB user with a database but no granted users, gets the protection
  of the instance before the user (`KindOrders.PostgreSQLUserOrderExactly`, `KindOrders.MariaDbUserOrderExactly`; a
  MariaDB user without a database is rejected before anything is generated). A PostgreSQL database without
  extensions gets the usage of its grant before the database (`KindOrders.PostgreSQLDatabaseOrderExactly`).
- A database named like a parameter group (`parameter-group`, say) has an instance that matches the first step and
  is kept like a stale group, so it is not removed when it should be restored from another snapshot
  (`RdsNames.RdsStepsDisjointExactly`, `RdsInstances.RecreationIsBlockedExactly`).
- The name of a parameter group is cut at 253 characters. A name of that length gives the groups of all families one
  name, and the group in use is dropped (`ParameterGroups.CutNameDropsGroupInUse`).
- The name of a repository is used as a regular expression, and its dots take any character. A name that takes the
  key of a lifecycle policy lets that policy be created before the repository was ever ready, and it is the only kind
  of name that does (`LifecyclePolicies.PoliciesAlwaysFollowExactly`, `LifecyclePolicies.DottedNamesTakePolicies`).
  A repository named `lifecycle-policy-...` never gets a lifecycle policy, unless its name takes the key of one
  (`LifecyclePolicies.PolicyIsPossibleExactly`).
- A broker whose name leaves no room for a suffix within 253 characters has one key for itself and its configuration
  (`BrokerConfigurations.BrokerIsNoConfigurationExactly`, `NameCanonicaliser.LabelHasRoomExactly`).
- While the secret is due and its instance reports no connection details, the whole round of an RDS database fails
  (`RdsRuns.RoundFailsExactly`).
- The force-sync code reads the clock twice. A call that straddles the old value replaces it after nine seconds
  instead of ten (`ForceSync.StraddlingCallIsEarly`). With calls shorter than nine seconds, new values are ten seconds
  apart exactly when no call straddles one; a call shorter than a second never loses more than one of the ten
  (`ForceSync.ReplacementsAreApart`).
- The contributor groups of an app project count only when some role mapping names the contributor role
  (`RoleMappings.ContributorsNeedAMapping`).
- The cache of tag support stores results under the group, version and kind but merges concurrent computations under
  their printed form, so callers agree exactly when the printed forms differ (`TagSupportCache.AlwaysCachedExactly`).
  The answers are those without a cache exactly when the callers with one printed form agree
  (`TagSupportCache.AlwaysUncachedExactly`); the groups kept by the RDS generator are re-emitted as untyped objects,
  which may resolve differently from typed ones of the same kind.

## Model

| member | source | states |
|---|---|---|
| NameCanonicaliser.GenerateEligibleKubernetesName | functions/common/base/util.go:284-302 | the passes over one buffer compute the one-scan canonical form: a label of section 2.3.1 of RFC 1035 in lower case, without a double hyphen, within the limit, or the empty string |
| NameCanonicaliser.TwoPassesCollapse | functions/common/base/util.go:287-290 | replacing separators by hyphens and then runs of hyphens by one is replacing runs of both by one hyphen |
| NameCanonicaliser.StrippedScan | functions/common/base/util.go:287-295 | stripping the collapsed text at both ends is a single left-to-right scan |
| NameCanonicaliser.CanonicalIsLabel | functions/common/base/util.go:284-302 | every name is a label within the limit, also after it is cut |
| NameCanonicaliser.CanonicalFixedPoints | functions/common/base/util.go:284-302 | exactly the labels within the limit are left unchanged |
| NameCanonicaliser.EligibleNameComposes | functions/common/base/util.go:284-302 | normalising at one limit and then at another is normalising once at the smaller limit, so it is idempotent |
| NameCanonicaliser.FullNameOfParts | functions/common/base/util.go:276-302 | a name and a suffix that starts with a letter are normalised separately while the whole is short enough |
| NameCanonicaliser.NamesWithoutRoom | functions/common/base/util.go:276-302 | when the normalised name fills the limit, all suffixes are cut off and the names are equal |
| NameCanonicaliser.ShortNameHasRoom | functions/common/base/util.go:276-302 | names of at most 251 characters have room for the start of a suffix |
| NameCanonicaliser.LabelHasRoomExactly | functions/common/base/util.go:276-302 | and labels only those |
| Patterns.LiteralMatchesItself | functions/common/base/fn.go:276-284 | a name of letters, digits and hyphens as an anchored pattern matches exactly itself |
| Patterns.KubernetesNameMatches | functions/common/base/fn.go:276-284 | an object name, whose dots take any character but a line break, matches exactly the strings that agree with it up to its dots, itself among them |
| Patterns.NormalisedNameMatchesItself | functions/common/base/fn.go:256-284 | so does every name the normaliser makes |
| Patterns.PrefixMatches | functions/common/base/fn.go:276-284 | a prefix of letters, digits and hyphens followed by `.*` matches exactly the one-line extensions of the prefix |
| Patterns.OverlapIsCommonMatch | functions/common/base/fn.go:256-284 | two such patterns have a common match exactly when their names or prefixes overlap |
| TagInjection.ExtractTagsLabels | functions/common/base/tag.go:92-125 | the loop collects exactly the prefixed entries, as tags without and as labels with their prefix |
| TagInjection.TaggedEntries | functions/common/base/tag.go:92-101 | a tag is extracted exactly when its prefixed key is there, with that entry's value |
| TagInjection.GetResourceTags | functions/common/base/util.go:169-189 | collects the environment, zone and composite layers in that order, or the composite's alone without a zone |
| TagInjection.Unstructured.InjectZone | functions/common/base/fn.go:310-354 | the new labels and tags as functions of the old ones; fails exactly when more than 44 tags would result, leaving the tags |
| TagInjection.InjectionTakesHighestLayer | functions/common/base/fn.go:310-354 | after injection every key has the value of the highest layer that has it, and the keys are exactly the union of the layers |
| TagInjection.LabelsTakeHighestLayer | functions/common/base/fn.go:310-354 | so does every label, over the label layers |
| TagInjection.InjectionSucceedsExactly | functions/common/base/fn.go:340-354 | an injection succeeds exactly when the object takes no tags or all layers together have at most 44 different keys |
| TagInjection.PlatformValuesWin | functions/common/base/fn.go:310-354 | no user layer overrides a non-empty zone or workspace, in tags and labels |
| TagSupportCache.ResolvedAtMostOnce | functions/common/base/tag.go:37-53 | under every interleaving each kind is resolved at most once, and with different printed forms every answer is the cached one of its kind |
| TagSupportCache.CachedValueStays | functions/common/base/tag.go:37-53 | a stored value never changes |
| TagSupportCache.CachedIsUncached | functions/common/base/tag.go:37-53 | an answer equals the uncached one when the callers with its printed form agree |
| TagSupportCache.AlwaysUncachedExactly | functions/common/base/tag.go:37-53 | the answers equal the uncached ones in every interleaving exactly when the callers with one printed form agree, which are those of one kind when the forms tell kinds apart |
| TagSupportCache.SomeCallerCanStep | functions/common/base/tag.go:37-53 | while a caller has no answer, some caller can take a step |
| TagSupportCache.AlwaysCachedExactly | functions/common/base/tag.go:37-53 | all answers are the cached ones in every interleaving exactly when the requested kinds have different printed forms |
| TagSupportCache.NameIsInjective | functions/common/base/tag.go:37-53 | the kinds Kubernetes admits have different printed forms |
| Readiness.GetCrossplaneReadyStatus | functions/common/base/util.go:304-339 | an unsynced resource is not ready, otherwise the last Ready condition decides, otherwise the default of the API group |
| Readiness.StatusIgnoresOrder | functions/common/base/util.go:304-339 | with one Ready condition the result does not depend on the order of the conditions |
| Sequencing.NewSequence | functions/common/base/group.go:51-59 | drops exactly the empty groups and keeps the order of the others |
| Sequencing.GetStepResourceNames | functions/common/base/fn.go:256-274 | the members of a step: listed names, or generated keys that match a listed pattern |
| Sequencing.Composer.AddDesiredResource | functions/common/base/fn.go:286-308 | stores the injected object with the readiness observed for it, or reports an error and changes nothing |
| Sequencing.Composer.AddStep | functions/common/base/fn.go:226-250 | in any order of its names one step adds the observed ones, all of them if the gate is open, and reports whether all are ready |
| Sequencing.Composer.AddDesiredSequenceResources | functions/common/base/fn.go:215-254 | the two flags over all steps amount to: observed, or the step before is observed ready |
| Sequencing.Composer.AddDesiredComposedResources | functions/common/base/fn.go:175-212 | for every order of iteration the round desires exactly the admitted names: in no step, observed, or behind a step whose generated resources are all observed ready; it fails exactly when one of those cannot be built |
| Sequencing.ObservedIsKept | functions/common/base/fn.go:238-246 | sequencing never drops an observed resource that is still generated |
| SequencingRuns.CreationFollowsSteps | functions/common/base/fn.go:215-254 | in every run, with changing generated sets, flapping readiness, deletion and recreation, a resource of a step exists only if each earlier step was seen ready in an earlier round |
| SequencingRuns.OrderHoldsExactlyWithoutGaps | functions/common/base/fn.go:231-251 | for fixed disjoint steps every run respects the order exactly when no empty step lies between two inhabited ones |
| SequencingRuns.RoundMakesProgress | functions/common/base/fn.go:204-252 | when all observed generated resources are ready and one is missing, the round desires a resource that does not exist |
| SequencingRuns.CooperativeRunCompletes | functions/common/base/fn.go:204-252 | from any start, a cooperative environment brings everything generated up within as many rounds as there are steps |
| KindSequences.DisjointExactly | functions/common/base/fn.go:256-284 | steps share no member over all strings exactly when no two of their patterns overlap |
| KindSequences.KindStepsAreDisjoint | functions/database/group.go:106-158 | for users, databases, Valkey instances, zones and Kafka users no string belongs to two steps |
| KindSequences.TakenInOneStep | functions/tenancy/group.go:60-68 | the step of a name can be read off a few of its characters |
| KindOrders.OrderHoldsExactly | functions/common/base/fn.go:231-251 | for each kind with constant steps, every run respects the order exactly when no step without resources lies between two with some |
| KindOrders.GeneratePostgreSQLUser | functions/database/service/pg_user.go:67-79 | the loops over the granted roles generate exactly the union of what belongs to the four steps |
| KindOrders.PostgreSQLUserOrderExactly | functions/database/group.go:108-114 | every run for a PostgreSQL user respects the order exactly when the user is granted a role |
| KindOrders.GenerateMariaDbUser | functions/database/service/mariadb_user.go:71-90 | likewise for the five steps, with grants only for a user that refers to a database |
| KindOrders.MariaDbUserOrderExactly | functions/database/group.go:115-122 | every run for a MariaDB user respects the order exactly when the spec names a database and users; as functions/database/group.go:302-304 rejects a spec without a database, the gap is that of a user with a database and no users |
| KindOrders.GeneratePostgreSQLDatabase | functions/database/service/pg_database.go:59-73 | the numbered extensions and the five fixed resources, by their steps |
| KindOrders.PostgreSQLDatabaseOrderExactly | functions/database/group.go:123-131 | every run for a PostgreSQL database respects the order exactly when it has an extension |
| Requirements.RequiredResourcesPresent | functions/common/base/fn.go:122-143 | true exactly when every required key was delivered with only items of the selector's apiVersion and kind |
| Requirements.AddRequiredResources | functions/common/base/fn.go:145-173 | the group's selectors, then the namespace's, the zone's and the zone environment's, over any it would collide with |
| Requirements.AddNamespaces | functions/tenancy/group.go:121-143 | the loop adds three selectors for each non-empty namespace, in any order |
| Requirements.GetUniqueNamespaces | functions/tenancy/service/zone.go:175-190 | the listed namespaces and the labelled ones that are not being deleted |
| Requirements.RunFunction | functions/common/base/fn.go:58-76 | a call generates exactly when it was given everything it asks for, fails exactly when it cannot tell what to ask for, and otherwise only asks |
| Requirements.AnswerReadsOnly | functions/tenancy/group.go:74-148 | an answer depends only on the environment, a zone's namespaces and the composite's namespace |
| Requirements.ReadKeysAreAsked | functions/tenancy/group.go:82-96 | every answer asks for what it depends on, with selectors that never change, however stale the input |
| Requirements.DiscoveryEndsByTheThirdCall | functions/common/base/fn.go:58-76 | for a static cluster and any seed, one of the first three calls reports an error or the third call generates with everything it asks for |
| Requirements.NamespaceKeysDiffer | functions/tenancy/group.go:121-143 | the keys of namespaces and kinds never collide, for all names |
| Requirements.ZoneKeepsEverySelector | functions/tenancy/group.go:74-148 | no selector of a zone overwrites another: fixed keys keep theirs and every namespace gets its own three |
| ParameterGroups.FamilyIsMajor | functions/database/service/instance_common.go:195-211 | for PostgreSQL and Valkey the family is the major number, whatever follows it |
| ParameterGroups.FamilyIsMinor | functions/database/service/instance_common.go:195-211 | for MariaDB it is major and minor, and unknown without a minor number |
| ParameterGroups.NumericFamilyIsVersioned | functions/database/service/instance_common.go:195-211 | the families of numeric versions meet the condition of the theorems below |
| ParameterGroups.GroupNamesAreDistinct | functions/database/service/instance_common.go:450-454 | different families have different group names when none is cut |
| ParameterGroups.CutGroupNamesCollide | functions/database/service/instance_common.go:450-454 | when the name of the database fills the limit, the groups of all families have one name |
| ParameterGroups.KeepStaleParameterGroups | functions/database/service/instance_common.go:345-367 | keeps exactly the observed groups of other families until the database reports the current one |
| ParameterGroups.WantedGroupIsGenerated | functions/database/service/instance_common.go:271-283 | with parameters and a family the database asks for a group that the same round generates; otherwise the round generates none, and a group named by the user is what it asks for |
| ParameterGroups.AppliedGroupKeptExactly | functions/database/service/instance_common.go:271-283 | the applied group is generated exactly when parameters are set and the family is known |
| ParameterGroups.CutNameDropsGroupInUse | functions/database/service/instance_common.go:345-376 | with names that are cut, the group in use is dropped |
| ParameterGroups.OthersDroppedOnceSwitched | functions/database/service/instance_common.go:345-376 | only the current group is generated exactly when the database reports it or no other exists |
| ParameterGroups.AppliedGroupIsNeverDropped | functions/database/service/instance_common.go:271-283 | in every run of version changes and switching delays, with or without a requested version, the applied group exists and every group-keeping round desires it |
| ParameterGroups.UnversionedDatabaseUsesAGroup | functions/database/service/instance_common.go:195-211 | such a run takes a database without a requested version to a group in use |
| RdsNames.NamedIsInjective | functions/database/service/instance_common.go:160-186 | the names of one database are pairwise distinct when none is cut |
| RdsNames.StepsOfRds | functions/database/group.go:137-146 | which strings each step takes |
| RdsNames.RdsStepsDisjointExactly | functions/database/group.go:137-146 | the steps are disjoint over all strings exactly when the database is not named like a parameter group |
| RdsNames.SomeDatabaseIsNamedLikeAGroup | functions/database/group.go:137-146 | a concrete such name |
| RdsInstances.RdsInstanceGenerator.ApplyParameterGroup | functions/database/service/instance_common.go:271-283 | writes the current and the kept groups, or fails exactly on conflicting parameters |
| RdsInstances.RdsInstanceGenerator.Generate | functions/database/service/instance_common.go:213-240 | the whole desired map, or failure exactly on conflicting parameters |
| RdsInstances.AbsentInstanceIsGenerated | functions/database/service/instance_common.go:225-231 | without an instance one is generated with the requested snapshot |
| RdsInstances.ExistingInstanceKeepsSnapshot | functions/database/service/instance_common.go:225-231 | what is generated for an existing instance keeps its snapshot |
| RdsInstances.RecreationIsBlockedExactly | functions/database/service/instance_common.go:213-240 | an instance with another snapshot is still generated exactly when its name makes it pass for a kept group |
| RdsInstances.MissingObjects | functions/database/service/instance_common.go:236-239 | the only key stored without an object is the secret's, exactly while connection details are missing |
| RdsRuns.RoundFailsExactly | functions/database/service/instance_common.go:225-239 | a round fails exactly when the secret exists or its instance is ready, but connection details are missing |
| RdsRuns.SnapshotChangesThroughAbsence | functions/database/service/instance_common.go:225-239 | in every run a snapshot changes only through a state without an instance |
| RdsRuns.InstanceCarriesRequestedSnapshot | functions/database/service/instance_common.go:225-239 | an instance carries the snapshot requested in the round that created it, when there was none |
| RdsRuns.RecreationInTwoRounds | functions/database/service/instance_common.go:225-239 | the old instance is not desired, and the new one is as soon as the first step is ready |
| RdsRuns.CreationFollowsTheSteps | functions/database/group.go:137-146 | in every run the instance exists only after its first step was ready, the secret only after both |
| RdsRuns.RunIsGroupProtocolRun | functions/database/service/instance_common.go:213-283 | runs of an RDS database refine runs of the parameter-group protocol |
| RdsRuns.GroupInUseStaysDesired | functions/database/service/instance_common.go:271-283 | in every run of an RDS database the applied group exists, and every group-keeping round desires it among everything else |
| ValkeyInstances.Generate | functions/database/service/valkey_instance.go:152-172 | the generated keys and the group the replication group asks for |
| ValkeyInstances.GroupInUseStaysDesired | functions/database/service/valkey_instance.go:174-205 | in every run the group the replication group has applied exists and stays desired |
| ValkeyInstances.OrderHoldsExactlyWithRules | functions/database/group.go:147-154 | every run respects the five steps exactly when some subnet has a rule |
| ValkeyInstances.CreationFollowsTheSteps | functions/database/group.go:147-154 | with rules in every round, a resource exists only after every earlier step was seen ready |
| BrokerConfigurations.BrokerSwitchedToConfiguration | functions/mq/service/rabbitmq_broker.go:173-187 | true exactly when the broker reports a non-empty id that is the external name of the observed configuration |
| BrokerConfigurations.KeepStaleConfigurations | functions/mq/service/rabbitmq_broker.go:159-169 | keeps exactly the other observed configurations until the broker has switched |
| BrokerConfigurations.Generate | functions/mq/service/rabbitmq_broker.go:126-146 | the generated keys |
| BrokerConfigurations.StepsOfBroker | functions/mq/group.go:53-79 | each step takes exactly the names it lists, over all strings |
| BrokerConfigurations.InUseIsKept | functions/mq/service/rabbitmq_broker.go:126-169 | with unique ids, a configuration in use is generated while one is set |
| BrokerConfigurations.OthersDroppedOnceSwitched | functions/mq/service/rabbitmq_broker.go:159-169 | only the current configuration is generated exactly when the broker reports it or no other exists |
| BrokerConfigurations.BrokerIsApart | functions/mq/service/rabbitmq_broker.go:289-318 | the broker's name differs from every name of its first group, whatever version and hash, while its own name has room for a suffix |
| BrokerConfigurations.BrokerIsNoConfigurationExactly | functions/mq/service/rabbitmq_broker.go:289-318 | the broker and its configuration have different names exactly then |
| BrokerConfigurations.OtherKeysAreNoConfigurations | functions/mq/service/rabbitmq_broker.go:289-318 | no other resource of the broker has the name of a configuration, for any version |
| BrokerConfigurations.BrokerDesiredExactly | functions/mq/group.go:53-79 | the broker is desired exactly when it exists or its whole first group is ready |
| BrokerConfigurations.ConfigurationInUseIsNeverDropped | functions/mq/service/rabbitmq_broker.go:126-169 | in every run of version changes, however AWS switches, the configuration in use is desired |
| BrokerConfigurations.ConfigurationInUseStays | functions/mq/service/rabbitmq_broker.go:126-169 | and it exists for as long as the broker reports it |
| LifecycleRules.Validate | functions/artifact/apis/v1alpha1/repository.go:86-116 | a rule is valid exactly with at most one selector, no empty value and exactly one positive count |
| LifecycleRules.ValidateLifecycleRules | functions/artifact/apis/v1alpha1/repository.go:71-84 | no error exactly for at most 25 valid rules of which only the last may match all images; else the first offence |
| LifecycleRules.BuildLifecyclePolicy | functions/artifact/service/repository.go:226-267 | one entry for each rule with ascending priorities, or the validation error |
| LifecycleRules.AnyComesLast | functions/artifact/service/repository.go:226-267 | an entry for all images has the highest priority number and is the only one |
| LifecycleRules.RulesAreRecoverable | functions/artifact/service/repository.go:246-267 | no selector and no count of a valid rule is lost |
| LifecyclePolicies.HasStaleLifecyclePolicy | functions/artifact/service/repository.go:171-178 | true exactly when a policy resource of another name is observed |
| LifecyclePolicies.GenerateRepositoryObject | functions/artifact/service/repository.go:142-158 | the repository, and its policy unless a stale one exists |
| LifecyclePolicies.AtMostOnePolicyExists | functions/artifact/service/repository.go:142-178 | in every run of rule changes at most one policy exists at any time |
| LifecyclePolicies.TwoRoundsComplete | functions/artifact/service/repository.go:142-178 | for every repository not named like a policy, dots in its name or not: once rules stop changing, two cooperative rounds lead to exactly the repository and the current policy |
| LifecyclePolicies.PolicyIsPossibleExactly | functions/artifact/group.go:50-53 | some run creates a policy exactly when the repository is not itself named like one or its name takes the key of one |
| LifecyclePolicies.PoliciesAlwaysFollowExactly | functions/artifact/group.go:50-53 | in every run policies exist only after the repository was seen ready, exactly when its name takes no key of a policy |
| LifecyclePolicies.DottedNamesTakePolicies | functions/artifact/group.go:50-53 | for every policy, two concrete names that take its key |
| ForceSync.ReplacedAfterTheDelayExactly | functions/database/service/instance_common.go:539-563 | a replaced value is at least ten seconds old exactly when it had passed at the first clock reading, and at least ten minus `k` when the call takes less than `k` seconds |
| ForceSync.StraddlingCallIsEarly | functions/database/service/instance_common.go:546-558 | a concrete call that replaces after nine seconds |
| ForceSync.ReplacementsAreApart | functions/database/service/instance_common.go:539-563 | in every run without a straddling call new values are ten seconds apart, and with calls shorter than nine seconds only then; in every run with calls shorter than `k` seconds they are ten minus `k` apart, and the gaps add up over the run |
| ForceSync.SyncsAreBounded | functions/database/service/instance_common.go:539-563 | an interval sees at most one new value for every ten seconds begun when no call straddles one, and in every run with calls shorter than a second at most one for every full nine seconds and one more; longer calls lower the nine by a second each |
| PasswordRotation.TriggerIsSetExactly | functions/database/service/pg_user.go:138-158 | over every stretch in which a role exists, a trigger is set exactly when some round saw a restored role with a password change, and it is one second after such a change |
| PasswordRotation.TriggerStays | functions/database/service/pg_user.go:144-146 | once set it never changes while the role exists |
| PasswordRotation.RotatedAtMostOnce | functions/database/service/pg_user.go:138-158 | in every run the password of an existing role is rotated at most once |
| JsonPointers.EscapeRoundTrip | functions/tenancy/service/zone.go:616-618 | decoding by section 4 of RFC 6901 undoes the escaping of every key, which leaves no slash |
| JsonPointers.EscapeIsInjective | functions/tenancy/service/zone.go:616-618 | different keys are escaped differently |
| JsonPointers.PathHasThreeTokens | functions/tenancy/service/zone.go:629-638 | a generated path has exactly three tokens, the last of which is the key |
| ZonePolicies.MutationSets | functions/tenancy/service/zone.go:620-697 | applied by section 4.1 of RFC 6902, the patches succeed on every pod, set the zone, default the pool and change nothing else in the document |
| ZonePolicies.MutationIsIdempotent | functions/tenancy/service/zone.go:620-697 | mutating twice is mutating once |
| ZonePolicies.MutationKeepsOtherKeys | functions/tenancy/service/zone.go:620-697 | all other keys of the selector keep their values |
| ZonePolicies.AdmittedExactly | functions/tenancy/service/zone.go:781-792 | a mutated pod is admitted exactly when the pool it ends up with, if any, is one of the zone's |
| ZonePolicies.AdmittedPodNeedsTheZone | functions/tenancy/service/zone.go:781-792 | whatever else it selects, an admitted pod fits no node without the label of its zone, in a pool or not |
| ZonePolicies.AdmittedPodStaysInItsZone | functions/tenancy/service/zone.go:213-218 | an admitted pod fits only nodes of its own zone, and of its own pool if it names one, whatever other labels it selects and the nodes have |
| ZonePolicies.AdmittedPodFitsExactly | functions/tenancy/service/zone.go:213-218 | it fits a node of a pool exactly when the zone is its own, the pool is the one it names, and the node has every other label it selects |
| ZonePolicies.PoolLabelsOfZonesCanBeEqual | functions/tenancy/service/zone.go:621-623 | the pool label alone does not tell zones apart |
| OciPlacements.GetAvailabilityDomains | functions/tenancy/service/zone_oci.go:336-356 | exactly the eligible domains, ascending, each once |
| OciPlacements.GetComputeSubnetIDs | functions/tenancy/service/zone_oci.go:82-99 | the ids of the subnets of the type, in some order by name |
| OciPlacements.GetPlacements | functions/tenancy/service/zone_oci.go:308-334 | round robin over the subnets, or which of the two errors |
| OciPlacements.PlacementsAreBalanced | functions/tenancy/service/zone_oci.go:308-356 | every eligible domain once, only in the subnets of the request, and each of them as often as the even share rounded down or up, the first ones up |
| OciPlacements.PlacementIgnoresOrder | functions/tenancy/service/zone_oci.go:82-99 | the result does not depend on the order of the template's placements or of uniquely named subnets |
| RoleMappings.MergeRoleMappings | functions/tenancy/service/zone.go:147-173 | for each mapped role the ascending groups that some mapping gives it, with the app project's for contributors |
| RoleMappings.MergeIsUnique | functions/tenancy/service/zone.go:147-173 | the result does not depend on the order of the mappings or how groups are split over them |
| RoleMappings.ContributorsNeedAMapping | functions/tenancy/service/zone.go:157-173 | an app project's groups become contributors exactly when some mapping names that role |

## Left out

- gRPC serving, logging, panic recovery (a recovered panic counts as a failed round) and the Crossplane SDK.
- The bodies of generated objects, JSON and protobuf conversion: an object keeps the fields that the protocols read.
- SHA-256, FNV and RFC 3339: hashes are parameters (letters and digits, distinct where a theorem says so), times are numbers.
- The transliteration to ASCII is a parameter of the normaliser; `FullName` takes names that are ASCII already, as Kubernetes names are.
- Regular expressions other than letters, digits, hyphens, `.` and `.*`: the patterns of the sequences contain no others, and a pattern that does not compile is not modelled.
- Readiness functions of single kinds, status aggregation and `PostProcessStatus`: field plumbing.
- `resolveFieldPath` itself: a caller of the cache carries what it returns.
- Errors of decoding a delivered resource; validation of environment fields that are no strings is reduced to their presence.
- A round is atomic: between two rounds AWS switches only to what a spec asked for, and does not delete a parameter group or configuration in use (`ParameterGroups.ProviderStep`, `BrokerConfigurations.EnvironmentStep`).
- ParameterGroups.AppliedGroupIsNeverDropped: while a group is in use, rounds keep parameters set and the family known, before that any round is covered; without parameters or a family the source drops all groups, which AppliedGroupKeptExactly states.
- RdsRuns.GroupInUseStaysDesired: the same rounds, for databases whose names are not cut and not taken for groups (RdsInstances.Database.IsWellNamed).
- BrokerConfigurations.ConfigurationInUseIsNeverDropped: for brokers whose name has room for a suffix; without it broker and configuration share one key, which BrokerIsNoConfigurationExactly states.
- ValkeyInstances.Generate: keys and the requested group only; the objects are plumbing.
- PasswordRotation.RotatedAtMostOnce: assumes that the provider sets a new password only when the trigger is later than the last change.
- The text of CEL expressions and Kyverno matching: the two expressions are modelled by their meaning, and only pods of the namespace are considered.
- The preemptible setting of OCI pools, one more field in every placement.
- JSON patches on arrays: the generated paths go through objects.
- Node group requirements of AWS pools, OCI pool parsing, route blocks, network policies and RBAC objects: easy members, or float conversion.
- The objects of grants, usages and extensions (KindOrders has their keys, for an instance that is ready; before that the call only reports an error), S3, IAM, Kafka and workload builders: object plumbing.
- Scheduling other than by nodeSelector: affinity and taints only narrow it further, and a pod that names its node is not modelled.
- Passwords: generation is random, and keeping the stored one is a lookup.
