# Wurwolves rules engine, in Dafny

Wurwolves is an online werewolf party game: a Python game server keeps
each game's players, stored night and day actions, and chat in a
database, and a React client polls it for changes. This project models
the server's rules engine and the small deterministic pieces of the
client, and proves properties of them.

- **Game state** (`GameState`, class `Game`): the players (role,
  state, previous role, activity, last-seen time, votes), the stored
  actions, the chat and the users, with the operations that change them
  in place: join, rename with truncation, stage changes, vote reset,
  kill, activity flipping, role wiping, and the start of a game (roles
  dealt in seat order, role messages, mason announcements). SQL queries
  are filters over these sequences.
- **Role distribution** (`Distribution`): the default wolf count and
  `assign_roles`' while loop of weighted draws without replacement, with
  the random draws and the shuffle as oracle inputs.
- **Night/vote resolution** (`GameActions`, `Resolver`, `RoleRules`,
  `Execution`, `Finalizers`, `Process`): stored actions become
  `GameAction` objects linked into their players' `originated_from` and
  `targetted_by` lists, sorted by (priority, id), modified by the
  medic, wolf and prostitute mixins, executed through each role's
  decision table, and closed by the stage's finalizer (judge night,
  switch to vote, count votes with one revote, start a game).
- **Submitting an action** (`Registration`): the checks of a role's
  action endpoint, the stored action, and the readiness check.
- **Role helpers** (`Roles`, `Masons`, `Teams`): the role registry,
  modifier method names, action function names, mason announcements and
  the win check.
- **Server views and identity** (`FrontendParser`, `Events`, `UserIds`,
  `Uuids`, `Hashing`): the per-user state the client receives, the event
  queue filter, cookieless session ids, and the game-tag hash.
- **Client** (`Updater`, `ApiUrls`, `ClientPlayers`, `ChatEntries`,
  `GameStageSlice`, `RoleSlice`, `Selectors`): the polling updater as an
  event-driven state machine over a snapshot, URL building, and the
  reducers and selectors.

Randomness (`random.choices`, `random.shuffle`, the fool's coin,
`Math.random`, `uuid4`), the MD5 digest (RFC 1321), the clock and
`JSON.stringify` are parameters. The browser's timers and requests are
events of the updater's state machine.

Where the documentation and the code disagree, the model follows the
code:
- The resolver's module docstring (backend/resolver.py:45-47) says
  modifiers run highest priority first. The sort at
  backend/resolver.py:464-465 is ascending, so priority-0 actions run
  first. `Resolver.OrderedSpec` states the ascending order.
- `registration.py` imports five roles, so its completeness check over
  `PlayerRole` would raise. The model's registry holds every role
  module (`Roles.RoleMapCheckOutcomes` states both).
- `_wipe_all_roles` assigns `status`, which is not a column, so player
  states are left as they were (`GameState.Wiped`).
- `Team.NARRATOR` is used by `narrator.py` but missing from `teams.py`:
  it is added.
- The role files import `TargetMustBeAlive`, `TargetMustNotBeSelf`,
  `TargetRequired` and `NoTargetRequired`, but
  backend/roles/utility_mixins.py defines only `OncePerGame`. The model
  gives those four mixins no effect: a target is neither checked for
  life, for being the actor, nor for presence.
- The role files describe their actions through `stages=` and
  `StageAction`, which `RoleDescription` does not declare; it has only
  `night_action`. The model reads `night_action` as "the role registers
  an action class for the night" (`Roles.HasNightAction`), and a stage
  action of a role with no registered class for that stage does nothing.
- `CancelledByMayor` and `CancelledByNarrator` are not mixed into any
  registered action class. They are modelled as predicates with their
  own lemmas, and registered actions use the default or once-per-game
  availability.

## Model

| member | source | states |
|---|---|---|
| Text.ListJoinRoundTrip | backend/game.py:497-501 | splitting `list_join`'s output at "&" and "," gives back the items whenever no item contains either separator, so the joined text loses nothing |
| Text.GrammaticalJoinNamesAll | backend/roles/mason.py:43-48 | every item of the list occurs in `grammatical_join`'s text |
| Text.Lower | react-ui/src/features/stateSlices/gameStage.js:8-10 | lower-casing keeps the length and lowers each character on its own |
| Text.LowerIdempotent | react-ui/src/features/stateSlices/gameStage.js:8-10 | lower-casing twice equals lower-casing once, and no upper-case letter remains |
| Roles.RoleActionInverse | backend/roles/mayor.py:114-125 | each action class belongs to exactly one (role, stage) pair of the registry, so the registry and its inverse agree in both directions |
| Roles.Priority | backend/resolver.py:370-375 | an action's priority is 1 exactly for the seer, fool and vigilante (which inherit it from the medic mixin) and 0 otherwise |
| Roles.OnlyWolvesAreWolves | backend/roles/wolf.py:36 | the wolf is the only role on the wolves' team |
| Roles.RegistryCallers | backend/resolver.py:163-200 | only the medic's and the wolf's actions have registered modifiers, and only for the two target modifier types |
| Roles.ModifierMethodNameRoundTrip | backend/resolver.py:159-160 | a `mod_<mixin>_<type>` name parses back to its mixin and type |
| Roles.ModifierMethodNameInjective | backend/resolver.py:159-160 | two modifier method names are equal only for the same mixin and type |
| Roles.MixinNameInjective | backend/resolver.py:163-200 | distinct mixins have distinct names |
| Roles.ActionFuncName | backend/roles/registration.py:30-31 | the action function name is the lower-cased role value followed by "_action" |
| Roles.ActionFuncNameInjective | backend/roles/registration.py:30-31 | distinct roles get distinct action function names |
| Roles.Named | backend/roles/registration.py:34-40 | the endpoint name is the given name followed by "_action" |
| Roles.RoleMapCheck | backend/roles/registration.py:26-27 | the completeness check passes iff every role is registered, and raises a TypeError otherwise |
| Roles.RoleMapCheckOutcomes | backend/roles/registration.py:16-27 | the five roles `registration.py` imports fail the check; the registrations of all role modules pass it |
| Distribution.DistributableCheck | backend/roles/distribution.py:36-43 | the import-time check passes iff every role is guaranteed, randomised or villager, and raises a TypeError otherwise |
| Distribution.DistributableCheckPasses | backend/roles/distribution.py:14-43 | the shown role tables pass that check |
| Distribution.CeilFifth | backend/roles/distribution.py:52-72 | the ceiling of n/5 |
| Distribution.DefaultNumWolves | backend/roles/distribution.py:52-72 | 1 wolf for 3-6 players, 2 for 7-9, 3 for 10-15, otherwise the ceiling of a fifth |
| Distribution.DefaultWolvesFit | backend/roles/distribution.py:52-72 | the default wolves plus seer and medic fit in the game iff it has at least three players |
| Distribution.PositiveWeights | backend/roles/distribution.py:113-119 | only roles with a positive weight stay in the draw |
| Distribution.Remove | backend/roles/distribution.py:143-164 | removing a drawn role drops every entry with that key and nothing else, and shortens the table when the key was present |
| Distribution.Repeat | backend/roles/distribution.py:125-137 | n copies of a role, none for a non-positive n |
| Distribution.ShufflePermutes | backend/roles/distribution.py:167-169 | the shuffle keeps the length and the multiset of roles |
| Distribution.CountHits | backend/roles/distribution.py:125-130 | the villager count drawn with `probability_of_villager` is at most the number of free places |
| Distribution.DrawIndex | backend/roles/distribution.py:143-164 | the weighted draw picks a valid index |
| Distribution.DrawOptionalRoles | backend/roles/distribution.py:143-164 | the loop fills the game exactly; every extra role is a weighted key or a villager; no optional role is drawn twice; masons come as a pair or not at all |
| Distribution.AssignRoles | backend/roles/distribution.py:75-169 | a non-dict setting or a non-integer wolf count is a TypeError; too few players give None; otherwise the roles have exactly the players' count, the wolves, seer and medic, and the draw guarantees above |
| Distribution.FinalDistributed | backend/roles/distribution.py:133-169 | the shuffled base roles plus the drawn extras meet the distribution guarantees |
| Distribution.CountsOfFinal | backend/roles/distribution.py:143-169 | after the shuffle no optional role occurs twice and masons come in pairs |
| Distribution.BaseCounts | backend/roles/distribution.py:133-137 | the base list holds the wolf count, one seer, one medic and villagers only |
| Masons.NamesOf | backend/roles/mason.py:51-62 | one user name per mason, in order |
| Masons.AnnounceMasons | backend/roles/mason.py:51-62 | exactly one strong message per mason, visible only to that mason |
| Masons.AnnouncementNamesOthers | backend/roles/mason.py:55-56 | each mason's message names every other mason, and the recipient is not among the others |
| Teams.TeamHasWon | backend/roles/teams.py:16-28 | no team has ever won: the result is False whatever the players |
| Teams.GameEnded | backend/resolver.py:378-387 | the game-ended check finds no winners and never ends the game |
| GameActions.NewGameAction | backend/resolver.py:264-283 | a new game action keeps its stored action, originator and target, is not prevented and has no flag raised |
| GameActions.Ends | backend/resolver.py:264-283 | each action's (originator, target) pair, in construction order |
| GameActions.From | backend/resolver.py:275-276 | a player's `originated_from` list holds exactly the actions it originated, in construction order |
| GameActions.To | backend/resolver.py:272-278 | a player's `targetted_by` list holds exactly the actions that target it, in construction order |
| GameActions.EndsAppend | backend/resolver.py:275-278 | constructing one more action appends it to its originator's list and, when it has a target, to the target's list, and changes no other list |
| GameActions.LinkedBound | backend/resolver.py:264-283 | in a linked player map every listed handle names an action |
| GameActions.ModifyOnlyRaisesFlags | backend/roles/medic.py:52-85 | a modifier never changes an action's stored data, ends or kind, and only raises flags |
| GameActions.ModifyIdempotent | backend/roles/medic.py:74-85 | applying the same modifier twice is the same as once |
| GameActions.MedicModifier | backend/roles/medic.py:74-85 | a medic's modifier marks the target or originator as saved, unless the medic's own action was prevented |
| GameActions.WolfModifier | backend/roles/wolf.py:59-70 | a wolf's modifier marks the target or originator as attacked unless they are saved by the medic |
| GameActions.ProstituteModifier | backend/roles/prostitute.py:84-93 | the prostitute's modifier marks the target or originator as sleeping with the prostitute |
| GameActions.ApplyMixin | backend/resolver.py:339-367 | calling one mixin's modifier over a handle list keeps every action's core and only raises flags |
| GameActions.ApplyMixinAt | backend/resolver.py:339-367 | an action is modified iff its handle is listed and it is an instance of the mixin |
| GameActions.ApplyMixins | backend/resolver.py:339-367 | calling several mixins' modifiers keeps every action's core and only raises flags |
| GameActions.Step | backend/resolver.py:339-367 | one modifier type's pass fails or keeps the number of actions |
| GameActions.ApplyTypes | backend/resolver.py:339-367 | all modifier types' passes keep every action's core and only raise flags |
| GameActions.AllTypes | backend/resolver.py:146-150 | `do_modifiers` runs the target-targetting pass, then the originating-from-target pass |
| GameActions.PreventAll | backend/roles/prostitute.py:96-103 | exactly the listed actions become prevented |
| GameActions.Modifiers | backend/resolver.py:303-367 | an action's `do_modifiers` keeps every action's ends and only raises flags |
| GameActions.MedicModifiers | backend/roles/medic.py:59-85 | a medic without a target is an AttributeError; otherwise an action becomes saved iff it was, or the medic was not prevented and it targets or originates from the medic's target and is affected by the medic; no other flag changes |
| GameActions.WolfModifiers | backend/roles/wolf.py:44-70 | a wolf without a target is an AttributeError; otherwise a seer or fool action becomes attacked iff it was, or it touches the wolf's target and that end is not saved; no other flag changes |
| GameActions.ProstituteModifiers | backend/roles/prostitute.py:96-103 | a prostitute without a target is an AttributeError; otherwise exactly the actions originated by the target become prevented |
| GameActions.OtherModifiers | backend/resolver.py:303-367 | the other roles' `do_modifiers` changes nothing |
| GameActions.EndsKeepLinks | backend/resolver.py:303-367 | modifiers keep the originated-from and targetted-by lists valid |
| GameActions.ModifyAll | backend/resolver.py:467-469 | modifying all actions in order keeps their ends and only raises flags |
| GameActions.Chain | backend/resolver.py:467-469 | two modifier rounds in a row keep ends and only raise flags |
| GameActions.SearchSavedByMedic | backend/roles/medic.py:88-95 | the search returns True iff some action targetting the player is a medic's action |
| GameActions.ProstituteSleepingWith | backend/roles/prostitute.py:106-115 | a non-prostitute is a TypeError; a prostitute with other than one action is an AssertionError; otherwise the answer is that action's target |
| Resolver.PlayerMap | backend/resolver.py:455-457 | one game player per shown player, keyed by player id, with empty lists |
| Resolver.BuildAllStops | backend/resolver.py:459-462 | the first action that cannot be built ends the construction with its error |
| Resolver.BuildAllNext | backend/resolver.py:459-462 | each buildable action is appended in stored order |
| Resolver.BuildAllSpec | backend/resolver.py:459-462 | construction succeeds iff every stored action can be built; then the i-th game action is built from the i-th stored one; otherwise the error is that of the first failing action |
| Resolver.LinkSteps | backend/resolver.py:275-278 | linking appends to the originator's list first, then to the target's |
| Resolver.LinkedAppend | backend/resolver.py:264-283 | constructing one more action keeps the player lists linked |
| Resolver.BeforeOrder | backend/resolver.py:464-465 | the (priority, id) order is irreflexive, total on distinct actions and transitive |
| Resolver.Insert | backend/resolver.py:464-465 | inserting a handle keeps the multiset plus that handle |
| Resolver.InsertSorted | backend/resolver.py:464-465 | inserting into a sorted list keeps it sorted |
| Resolver.SortedPrefix | backend/resolver.py:464-465 | the sorted prefix is a permutation of the first n handles |
| Resolver.Range | backend/resolver.py:464-465 | the identity handle list |
| Resolver.OrderedSpec | backend/resolver.py:464-465 | the sort is a permutation of all actions, ascending by priority and then by action id |
| Resolver.ModifyAllNext | backend/resolver.py:467-469 | modifying in order runs each action's `do_modifiers` on the result of the previous ones |
| Resolver.ModifyAllStops | backend/resolver.py:467-469 | the first failing `do_modifiers` ends the loop with its error |
| Resolver.Resolution.Register | backend/resolver.py:264-283 | constructing a game action fails with a KeyError iff its originator or target is missing; otherwise it is appended and linked, and no player's stored data changes |
| Resolver.Resolution.RegisterAll | backend/resolver.py:459-462 | constructing every stored action yields the specified construction or its first error |
| Resolver.Resolution.ModifyInOrder | backend/resolver.py:467-469 | the in-place modifier loop leaves the actions the specified ordered modification gives |
| RoleRules.Victims | backend/resolver.py:471-474 | the players an effect list kills |
| RoleRules.Voted | backend/roles/mayor.py:106-111 | the players an effect list votes for |
| RoleRules.CheckVerdict | backend/roles/seer.py:47-79 | a prevented check is "distracted"; else an attacked checker is "interrupted"; else the check sees a wolf iff the target looks like one |
| RoleRules.CheckTextsDistinct | backend/roles/seer.py:47-79 | the four verdicts have four different texts |
| RoleRules.Execute | backend/resolver.py:285-291 | an action's `execute` fails only with an AttributeError or RuntimeError, and kills at most one player |
| RoleRules.ExecuteTargetless | backend/resolver.py:285-291 | an action that needs a target fails without one; the medic, prostitute and move-to-vote actions change nothing |
| RoleRules.WolfKillsUnlessSaved | backend/roles/wolf.py:86-93 | the wolf's target is killed as WOLFED unless saved by the medic, with one public message per kill |
| RoleRules.SeerSendsOneVerdict | backend/roles/seer.py:47-79 | the seer gets exactly one strong message, visible only to them, whose text is the verdict's; no one dies |
| RoleRules.SeerTellsWolves | backend/roles/seer.py:68-79 | an undisturbed seer is told "a wolf" iff the target is on the wolves' team or is the miller |
| RoleRules.FoolIgnoresRole | backend/roles/fool.py:47-80 | the fool's verdict does not depend on the target's role, an undisturbed fool's verdict follows the coin, and exactly one private strong message is sent |
| RoleRules.ExorcistKillsOne | backend/roles/exorcist.py:64-82 | the exorcist kills the target if it is a wolf and otherwise dies, and sends one private message |
| RoleRules.VigilanteShotLands | backend/roles/vigilante.py:65-70 | the shot kills the target as SHOT iff it is neither prevented nor saved by the medic |
| RoleRules.PriestReveals | backend/roles/priest.py:72-96 | a prevented priest learns nothing; an unprevented check of a target without a previous role is a RuntimeError; otherwise the priest privately learns the target's previous role |
| RoleRules.MayorVotesOnce | backend/roles/mayor.py:106-111 | the mayor's vote adds exactly one vote for the target and posts one public message |
| RoleRules.MostRecent | backend/roles/medic.py:125-129 | the index of the most recent action |
| RoleRules.MostRecentUnique | backend/roles/medic.py:125-129 | the most recent action is unique |
| RoleRules.PlayerIdOf | backend/roles/medic.py:98-129 | looking up a missing user is a KeyError |
| RoleRules.MedicImmediateSpec | backend/roles/medic.py:98-129 | a medic with no earlier night saves may save anyone; otherwise a save is refused with a 403 iff it repeats the last night's target |
| RoleRules.MedicIgnoresUnstagedActions | backend/roles/medic.py:120-123 | actions stored without a stage never count as earlier saves |
| RoleRules.PriestImmediate | backend/roles/priest.py:60-70 | the priest's submission is accepted iff the chosen player exists and is dead; otherwise it is an AttributeError or a 403 |
| RoleRules.Immediate | backend/resolver.py:294-301 | submitting kills no one, records no vote, and posts at most one public message |
| RoleRules.ImmediateOutcomes | backend/roles/vigilante.py:55-63 | only the medic and priest can refuse a submission; the vigilante posts "BANG!!!"; the move-to-vote actions post one public message |
| Execution.PlayAllSpec | backend/resolver.py:471-474 | playing an action's effects appends exactly its messages, fails only with an AttributeError, and leaves every player it does not kill or vote for unchanged |
| Execution.VictimsSnoc | backend/resolver.py:471-474 | the victims and votes of one more effect are those before plus its own |
| Execution.PlayAllStops | backend/resolver.py:471-474 | the first failing effect ends the list |
| Execution.PlayOne | backend/game.py:658-696 | one chat message, kill or vote on the game moves its table as the effect specifies, or fails with the lookup's AttributeError and changes nothing |
| Execution.PlayEffects | backend/game.py:658-696 | the game's players and messages become those the effect list specifies |
| Execution.RunActionsKeeps | backend/resolver.py:471-474 | the execute loop fails only with an AttributeError or a RuntimeError |
| Execution.RunActionsNext | backend/resolver.py:471-474 | the execute loop runs each action in order on the result of the previous ones |
| Execution.RunActionsStops | backend/resolver.py:471-474 | the first failing `execute` ends the loop |
| Execution.ExecuteAll | backend/resolver.py:471-474 | the in-place execute loop leaves the game the specified run gives |
| Finalizers.Votes | backend/resolver.py:406-433 | each shown player's vote count |
| Finalizers.FirstMax | backend/resolver.py:406-433 | the first index holding the largest count |
| Finalizers.CountZero | backend/resolver.py:406-433 | a count is zero iff no entry equals it |
| Finalizers.CountOnce | backend/resolver.py:406-433 | a count is one iff no other entry equals it |
| Finalizers.DecideSpec | backend/resolver.py:406-433 | no players means no decision; a unique top vote is lynched; a tie gives one revote, then no lynch |
| Finalizers.ResetAll | backend/game.py:699-704 | every player's votes become zero and nothing else changes |
| Finalizers.LynchUniqueTop | backend/resolver.py:413-433 | a unique top vote-getter is killed as lynched, every row's votes reset, and the night begins |
| Finalizers.CountVotesSpec | backend/resolver.py:406-433 | with no shown players the count is a ValueError; a unique top player is lynched and the night begins; a first tie resets the votes for a revote; a second tie starts the night with no lynch |
| Finalizers.CountVotes | backend/resolver.py:406-433 | the in-place vote count leaves the game the specification gives |
| Finalizers.LynchPlayer | backend/resolver.py:406-433 | lynching leaves the game the specification gives |
| Finalizers.JudgeNight | backend/resolver.py:390-395 | judging the night leaves the game the specification gives |
| Finalizers.Finalize | backend/resolver.py:440-446 | each stage runs its own finalizer: judge night, switch to vote, count votes, or start a game in the lobby or after the end; that start fails with 400 iff fewer than three players are shown after the wipe, leaving every role wiped, the game touched and nothing else changed, and otherwise deals a valid default distribution to the shown seats, expires actions and messages, posts the start messages and opens the night |
| Finalizers.Start | backend/game.py:530-585 | the 400 of `start_game` is the error, raised iff fewer than three players are shown after the wipe; otherwise the deal, the expired actions, the start messages and the night, as `start_game` promises |
| Process.LinkedMap | backend/resolver.py:452-462 | the linked player map keeps every player and its stored data |
| Process.LinkedIsLinkedMap | backend/resolver.py:452-462 | any linked map over the same players is that map |
| Process.BuiltLinked | backend/resolver.py:452-462 | constructing the actions yields linked player lists |
| Process.Prepare | backend/resolver.py:449-469 | preparing the night gives bound handles and an order within range, or an AttributeError, TypeError or KeyError |
| Process.BuildErrors | backend/resolver.py:459-462 | construction fails only with an AttributeError, TypeError or KeyError |
| Process.ModifyAllFails | backend/resolver.py:467-469 | the modifier loop fails only with an AttributeError |
| Process.ApplyTypesFails | backend/resolver.py:339-367 | a modifier pass fails only with an AttributeError |
| Process.ResolveSpec | backend/resolver.py:449-481 | a failed preparation changes nothing; a successful resolution moves night to day, day to voting, and voting to night or a revote, with a new stage id; only the lobby and the end restart the game |
| Process.CountVotesMoves | backend/resolver.py:406-433 | a successful vote count moves to the night or to a revote |
| Process.PrepareBuildFails | backend/resolver.py:459-462 | a construction error is the preparation's error |
| Process.PrepareBuilt | backend/resolver.py:464-469 | a successful construction is sorted and then modified |
| Process.ResolvePlanned | backend/resolver.py:471-481 | once the plan is made, the resolution is the execution of the planned actions followed by the finalizer |
| Process.ExecuteSpec | backend/resolver.py:471-481 | executing keeps the stage, so a clean finalizer moves it on from where the resolution started; a restart happens only in the lobby or at the end, after a clean execution |
| Process.FinishSpec | backend/resolver.py:474-481 | a clean finalizer moves night to day, day to voting and voting to night or a revote, with a new stage id; only the lobby and the end restart the game |
| Process.PlanStage | backend/resolver.py:449-469 | planning in place yields exactly the specified preparation |
| Process.ResolveStage | backend/resolver.py:449-481 | resolving in place leaves the game the specified resolution gives; a restart runs `start_game` on the reached table: the 400 iff fewer than three shown players after the wipe, with every role wiped, or the deal, start messages and night |
| Process.ExecuteStage | backend/resolver.py:471-481 | executing the plan in place and running the finalizer leaves the game as the specified execution gives, a restart being `start_game` on the table the actions reached, its 400 keeping the role wipe |
| Process.FinishStage | backend/resolver.py:474-481 | the finalizer on the game leaves it as the specified finalizer gives; in the lobby and at the end that is `start_game`, with its 400, its wipe and its deal |
| Process.WaitingSpec | backend/game.py:707-743 | a player holds up the stage iff their role has a required action this stage, their state allows it, it is available, and they have not acted in this stage |
| Process.AllActed | backend/game.py:718-739 | the loop answers ready iff no shown player is still waiting on a required action of the stage |
| Process.ProcessActions | backend/game.py:707-743 | the stage is resolved iff nobody is waiting, a restart running `start_game` with its 400, wipe and deal; otherwise the game is unchanged |
| Process.ActingEndsWaiting | backend/game.py:707-743 | a player who has acted in the stage no longer holds it up |
| Process.FlipAll | backend/game.py:461-481 | every player's activity is re-evaluated against the threshold |
| Process.FlipAllSpec | backend/game.py:461-481 | after the flip a player is active iff seen after the threshold; flipping twice equals once; identities are kept |
| Process.Refresh | backend/game.py:442-481 | the keepalive touches the player and flips activity, and reports whether anyone changed |
| Process.PlayerKeepalive | backend/game.py:442-485 | an unregistered user gets a 404 and nothing changes; without a change nothing else happens; with a change the game is touched and resolved if nobody is waiting, and a restart then runs `start_game` on the refreshed rows, its 400 keeping both the refreshed rows and the role wipe |
| Registration.Digits | backend/roles/registration.py:58-72 | the decimal text of a number is non-empty and all digits |
| Registration.DigitsRoundTrip | backend/roles/registration.py:58-72 | the decimal text of a number reads back as that number, so the game id in a 404 message is exact |
| Registration.Refusal | backend/roles/registration.py:58-72 | a refusal is always an HTTP 403 or 404 |
| Registration.RefusalSpec | backend/roles/registration.py:58-85 | a submission is accepted iff the game exists, the user is a shown player of that role, the role has a night action, it is night, and they have not acted this stage; otherwise it gets the matching 404 or 403 |
| Registration.NextActionId | backend/roles/registration.py:87-94 | the new action's id differs from every stored id |
| Registration.Stored | backend/roles/registration.py:87-94 | storing appends exactly one action, for that player, target and stage, and keeps the earlier ones |
| Registration.AllNightActionsIn | backend/roles/registration.py:96-103 | the readiness loop answers True iff every player with a night action has acted this stage |
| Registration.SubmitNeverCompletesNight | backend/roles/registration.py:104-106 | as written, an accepted submission that completes the night raises a TypeError and is rolled back |
| Registration.LoneWolfKillIsLost | backend/roles/registration.py:104-106 | a lone wolf's accepted kill is lost to that TypeError |
| Registration.SubmitAsWritten | backend/roles/registration.py:56-108 | the endpoint as written stores the action and touches the game, or leaves both as they were |
| Registration.NightReadyIsReady | backend/roles/registration.py:96-106 | when every night-acting player has acted, the readiness check of `process_actions` also passes, so the resolution runs |
| Registration.Submit | backend/roles/registration.py:56-108 | a refusal changes nothing; an accepted action is stored and the game touched, and once every night-acting player has acted the night is resolved for the current stage and stage id |
| Registration.AcceptedActionCounts | backend/roles/registration.py:87-103 | an accepted action marks its player as having acted, so they no longer hold up the night |
| Registration.LoneWolfNightResolves | backend/roles/registration.py:96-106 | in the corrected endpoint a lone wolf's kill completes the night |
| GameState.OncePerGameSpec | backend/roles/utility_mixins.py:10-22 | a once-per-game action is available iff the player has no unexpired night action |
| GameState.OncePerGameAfterExpiry | backend/roles/utility_mixins.py:18-22 | once every action has expired, the action is available again |
| GameState.CancelledByMayorSpec | backend/roles/mayor.py:69-87 | an action is available iff no mayor is alive, and the parent availability, when there is one, holds |
| GameState.CancelledByNarratorSpec | backend/roles/narrator.py:68-76 | an action is available iff no narrator is in the game |
| GameState.PlayerHasAction | backend/game.py:837-899 | a player has an action iff their role has one this stage, their state allows it and it is available; it is still to do iff they have not acted this stage |
| GameState.UnusedBranches | backend/game.py:837-899 | no registered action uses the multiple-optional, once-per-team or active-players-only branches |
| GameState.ActingDisables | backend/game.py:837-899 | after acting in a stage a player has nothing left to do in it |
| GameState.KilledTwice | backend/game.py:658-672 | killing a killed player keeps the first previous role and makes them a spectator in the new state |
| GameState.KilledStaysVisible | backend/game.py:658-672 | killing keeps a player's identity and visibility |
| GameState.WipedVisibility | backend/game.py:530-535 | after wiping, a player is shown iff active |
| GameState.FlippedSpec | backend/game.py:461-481 | a player becomes active iff seen after the threshold, and changes iff the flag was wrong |
| GameState.NextPlayerId | backend/game.py:170-184 | the new player id is above every existing id |
| GameState.JoinSpec | backend/game.py:148-203 | joining adds the user as an active spectator when not already in the game, changes no other player, and touches the player |
| GameState.JoinIdempotent | backend/game.py:148-203 | joining twice at the same time equals joining once |
| GameState.Truncated | backend/game.py:774-806 | a new name is cut to 25 characters, keeping a prefix |
| GameState.RenamedUsers | backend/game.py:774-806 | renaming changes only that user's entry |
| GameState.RenameSpec | backend/game.py:774-806 | the same name changes nothing; another name is truncated and marked not generated |
| GameState.RenameTwice | backend/game.py:774-806 | renaming twice to the same short name equals renaming once |
| GameState.VisibleIndices | backend/game.py:921-931 | exactly the shown players' seats, in order |
| GameState.WolfMessageNamesFellows | backend/game.py:562-580 | a wolf's role message, visible only to them, names exactly their fellow wolves |
| GameState.WolfMessageText | backend/game.py:562-580 | a wolf's role message is the fixed text followed by the joined fellow names |
| GameState.RoleMessages | backend/game.py:562-580 | one private message per dealt player |
| GameState.HashReturnsImmediately | backend/game.py:406-420 | the hash request waits only when the known hash equals the current one |
| GameState.WipedAll | backend/game.py:530-535 | every player is wiped and none is added or removed |
| GameState.PlayersAt | backend/game.py:553-556 | the players at the given seats, in order |
| GameState.MasonsKnown | backend/game.py:582-583 | the masons' user names are known |
| GameState.SameIdentitiesValid | backend/game.py:553-556 | dealing roles keeps ids distinct and users known |
| GameState.StartChat | backend/game.py:558-583 | the start posts the public announcement, then one private role message per dealt player, then one strong private message per mason |
| GameState.Game.SetStage | backend/game.py:746-754 | a valid stage is set with a new stage id and no attempts; anything else is a ValueError that changes nothing |
| GameState.Game.ResetVotes | backend/game.py:699-704 | every vote becomes zero and the stage id moves on |
| GameState.Game.KillPlayer | backend/game.py:658-672 | a missing player is an AttributeError; otherwise exactly that player is killed |
| GameState.Game.VotePlayer | backend/game.py:687-696 | a missing player is an AttributeError; otherwise exactly that player gains one vote |
| GameState.Game.SendChatMessage | backend/game.py:626-655 | one message is appended |
| GameState.Game.ClearChatMessages | backend/game.py:616-618 | every message becomes expired |
| GameState.Game.ClearActions | backend/game.py:621-623 | every action becomes expired |
| GameState.Game.SetUserName | backend/game.py:774-806 | the user table is renamed, and the game is touched iff the name changed for a player of it |
| GameState.Game.Join | backend/game.py:148-203 | joining creates the game with its announcement when needed, adds the player, and touches the game only for a new player |
| GameState.Game.WipeAllRoles | backend/game.py:530-535 | every player is wiped in place |
| GameState.Game.AssignInOrder | backend/game.py:553-556 | the i-th shown seat gets the i-th role and becomes alive; every other seat is unchanged |
| GameState.Game.EndGame | backend/game.py:504-516 | shown players are touched, every action is deleted, and the stage becomes ENDED |
| GameState.Game.SendMessages | backend/game.py:562-583 | the messages are appended in order |
| GameState.Game.Deal | backend/game.py:544-556 | on rows already wiped, the k-th shown seat takes the k-th dealt role and comes alive, and every other row stays wiped |
| GameState.Game.AnnounceStart | backend/game.py:558-583 | actions expire and the start messages are posted |
| GameState.Game.StartGame | backend/game.py:530-585 | every role is wiped first, in a scoped call that commits; fewer than three shown players is then a 400 that keeps the wipe, touches the game and changes nothing else; otherwise roles are distributed and dealt, actions expire, the start messages are posted and the night begins |
| GameState.Game.OpenNight | backend/game.py:558-585 | the start messages are posted and the night begins |
| GameState.Game.DealRoles | backend/game.py:530-556 | every role is wiped, then the shown seats are dealt a valid distribution iff there are at least three of them; with fewer the rows stay wiped |
| GameState.Game.FlipActivity | backend/game.py:461-481 | every player's activity is flipped in place, and the result says whether anyone changed |
| GameState.UpdateEvents.Subscribe | backend/game.py:423-428 | a waiting request registers the game's event |
| GameState.UpdateEvents.Trigger | backend/game.py:913-918 | triggering wakes the waiters iff there were any, and removes the event |
| FrontendParser.TextPresent | backend/frontend_parser.py:45-51 | the validator rejects a visible button with empty text with a ValueError and otherwise keeps the text |
| FrontendParser.NewRoleState | backend/frontend_parser.py:13-57 | the role state is built iff the validator passes, keeping the given flags |
| FrontendParser.Controls | backend/frontend_parser.py:84-92 | the button is shown iff the stage has button text, is enabled iff it is shown and the player has no actions, and submits to the role's action function |
| FrontendParser.PlayersOf | backend/frontend_parser.py:96-101 | one entry per player, in order, with user id, user name and state |
| FrontendParser.PlayerViewsDistinct | backend/frontend_parser.py:96-101 | distinct players have distinct ids in the view |
| FrontendParser.ChatOf | backend/frontend_parser.py:102-106 | the chat holds exactly the messages that are public or visible to the player |
| FrontendParser.ChatAppend | backend/frontend_parser.py:102-106 | a new message is appended to the chat iff the player can see it, keeping order |
| FrontendParser.PublicChatIsShared | backend/frontend_parser.py:102-106 | with only public messages every player sees the same chat, all of it |
| FrontendParser.ParseAsWritten | backend/frontend_parser.py:60-116 | as written, the parser never produces a state, and it fails with an AttributeError exactly when the viewer is not a shown player |
| FrontendParser.ParseGameToState | backend/frontend_parser.py:60-116 | a missing game or viewer gives None; otherwise the state copies the viewer's identity, stage and hash, lists every player, shows the button by the stage's text and disables it once the viewer has acted, and carries exactly the chat the viewer can see |
| FrontendParser.ActingDisablesButton | backend/frontend_parser.py:84-92 | once the viewer has an unexpired action the button is disabled |
| FrontendParser.ViewerGetsTypeError | backend/frontend_parser.py:91 | a seated viewer of a one-player game hits the TypeError as written and gets a state in the corrected parser |
| FrontendParser.StrangerGetsAttributeError | backend/frontend_parser.py:69 | a stranger hits the AttributeError as written and gets None in the corrected parser |
| Events.NewQueue | backend/events.py:38-72 | the queue keeps its settings, and a single type filter becomes a one-element list |
| Events.SingleTypeIsOneElementList | backend/events.py:71-72 | a single type filter filters like the one-element list, and lets only that type through |
| Events.UserSeesPublic | backend/events.py:74-89 | with a user id, every event that passes the public-only filter still passes |
| Events.GetAllEvents | backend/events.py:114-139 | no more events than in the log |
| Events.AllEventsMembers | backend/events.py:114-139 | the list holds exactly the log's matching events after `since` |
| Events.ListedIdsFromLog | backend/events.py:114-139 | every listed id comes from the log |
| Events.AllEventsAscending | backend/events.py:114-139 | the events are listed in ascending id order |
| Events.GetLatestEventId | backend/events.py:91-112 | with no matching event the latest id is a TypeError; otherwise it is a matching event's id, and in an ascending log the largest one |
| Events.GetAllEventsSnoc | backend/events.py:114-139 | one more logged event is appended iff it matches |
| Events.LatestIsLastListed | backend/events.py:91-139 | the latest id is the last listed event's |
| Events.NothingSinceLatest | backend/events.py:91-139 | nothing is listed after the latest id |
| Events.FalsySinceIsNoBound | backend/events.py:114-139 | `since` = 0 lists the same as no bound |
| Events.PublicQueueOfThree | backend/events.py:74-139 | a public-only queue sees only the public event of three |
| Events.UserQueueOfThree | backend/events.py:74-139 | a user's queue sees the public event and the one shown to them |
| Events.SecretQueueOfThree | backend/events.py:74-139 | a queue with no user and no public-only flag sees all three |
| Events.TypeFiltersOfThree | backend/events.py:85-87 | type filters pass only the listed types |
| Hashing.FromBytesBig | backend/utils.py:11-15 | a big-endian number of k bytes is below 256^k |
| Hashing.ToBytesBig | backend/utils.py:11-15 | the k-byte big-endian encoding |
| Hashing.FromToBytes | backend/utils.py:11-15 | decoding an encoding gives the number back |
| Hashing.ToFromBytes | backend/utils.py:11-15 | encoding a decoding gives the bytes back |
| Hashing.SliceEnd | backend/utils.py:12-15 | Python's slice end for `[:n]`, negative n counting from the end |
| Hashing.HashStrToInt | backend/utils.py:4-15 | the result is the big-endian number of the digest's first n bytes, below 256^n, and the whole digest for n ≥ 16 |
| Hashing.DefaultFitsThreeBytes | backend/utils.py:4-15 | with the default three bytes the result is below 2^24 |
| Hashing.SplitBytes | backend/utils.py:11-15 | a big-endian number splits into its leading and trailing bytes |
| Hashing.ShorterHashIsLeadingBytes | backend/utils.py:4-15 | the n-byte hash is the full hash's leading n bytes |
| Uuids.HexRoundTrip | backend/user_id.py:27-30 | reading back k hex digits gives the number |
| Uuids.Render | backend/user_id.py:51-53 | a UUID's text has 36 characters with hyphens at 8, 13, 18 and 23 |
| Uuids.ParseUuid | backend/user_id.py:27-30 | a parsed UUID has 32 hex digits whose value it is |
| Uuids.HyphenateCompact | backend/user_id.py:27-30 | removing the hyphens of the text gives back its 32 hex digits |
| Uuids.ParseRender | backend/user_id.py:27-32 | the text of a UUID parses back to it |
| Uuids.PlainHexParses | backend/user_id.py:27-30 | plain hex digits parse as their value |
| UserIds.Assign | backend/user_id.py:35-53 | a known address keeps its UUID; a new one is stored with the fresh UUID; the cookie is always set to the answer |
| UserIds.Request | backend/user_id.py:13-32 | a cookie is set iff the request has none or it does not parse; a parsed cookie is the answer; any cookie removes the address, which is stored again only for an unparsable one |
| UserIds.CookielessRequestsAgree | backend/user_id.py:21-22 | two cookieless requests from one address get the same UUID |
| UserIds.CookieIdentifiesUser | backend/user_id.py:13-53 | the cookie a cookieless request gets identifies that user on the next request, which sets nothing and forgets the address |
| UserIds.ClientIds.AssignNewId | backend/user_id.py:35-53 | the table and answer are those `Assign` specifies |
| UserIds.ClientIds.GetUserId | backend/user_id.py:13-32 | the table and answer are those `Request` specifies |
| ClientPlayers.IndexById | react-ui/src/features/stateSlices/players.js:66-68 | the index of the first player with that id, or none when no player has it |
| ClientPlayers.Replaced | react-ui/src/features/stateSlices/players.js:28-49 | one entry replaced, every other entry, the length and the order kept |
| ClientPlayers.SpliceOne | react-ui/src/features/stateSlices/players.js:22-27 | `splice(start, 1)` removes one entry when the start is in range and none otherwise |
| ClientPlayers.RemoveAsWritten | react-ui/src/features/stateSlices/players.js:22-27 | as written, `removePlayer` removes the last entry whatever id is given |
| ClientPlayers.RemoveDropsLastEntry | react-ui/src/features/stateSlices/players.js:22-27 | removing the first of two players drops the second instead |
| ClientPlayers.RemoveById | react-ui/src/features/stateSlices/players.js:22-27 | the corrected removal drops the first entry with that id, and nothing when there is none |
| ClientPlayers.RemoveByIdKeepsOthers | react-ui/src/features/stateSlices/players.js:22-27 | every player with another id stays, and nothing new appears |
| ClientPlayers.PlayersSlice.AddPlayer | react-ui/src/features/stateSlices/players.js:8-21 | one unselected player is appended and earlier entries are untouched |
| ClientPlayers.PlayersSlice.RemovePlayer | react-ui/src/features/stateSlices/players.js:22-27 | the list loses its last entry |
| ClientPlayers.PlayersSlice.SetPlayerName | react-ui/src/features/stateSlices/players.js:28-35 | a truthy name renames the first player with that id; a missing id throws a TypeError; a falsy name changes nothing |
| ClientPlayers.PlayersSlice.SetPlayerStatus | react-ui/src/features/stateSlices/players.js:36-43 | a truthy status changes that player's status; a missing id throws; a falsy status changes nothing |
| ClientPlayers.PlayersSlice.SetPlayerSelected | react-ui/src/features/stateSlices/players.js:44-49 | the flag is always assigned; a missing id throws |
| ClientPlayers.SettersKeepIds | react-ui/src/features/stateSlices/players.js:28-49 | the setters keep every id in place, so later lookups find the same entries |
| ClientPlayers.IndexSameIds | react-ui/src/features/stateSlices/players.js:66-68 | lists with the same ids find every id at the same index |
| ChatEntries.ChatSlice.constructor | src/features/stateSlices/chatEntries.js:6 | the chat starts empty |
| ChatEntries.ChatSlice.AddChatEntry | src/features/stateSlices/chatEntries.js:8-13 | exactly one entry is appended and earlier ones are kept |
| ChatEntries.ChatSlice.ClearChat | src/features/stateSlices/chatEntries.js:14-16 | the chat becomes empty |
| GameStageSlice.SetStage | react-ui/src/features/stateSlices/gameStage.js:8-10 | the new stage is the payload with the same length and no upper-case letter, each letter kept as a letter, whatever the previous stage |
| GameStageSlice.SetStageIdempotent | react-ui/src/features/stateSlices/gameStage.js:8-10 | setting an already lower-case stage changes nothing |
| GameStageSlice.ServerStageNames | react-ui/src/features/stateSlices/gameStage.js:6-10 | the server's stage names arrive as "night" and "voting" |
| RoleSlice.Role.constructor | react-ui/src/features/stateSlices/role.js:6-14 | empty texts and both button flags false |
| RoleSlice.Role.SetRole | react-ui/src/features/stateSlices/role.js:16-26 | the role card becomes the payload, whatever the previous card was |
| Selectors.SelectorsSeparateSources | react-ui/src/features/selectors.js:1-29 | the server-data selectors read only the server state, and the selected player only the client state |
| Selectors.GetPlayerById | react-ui/src/features/selectors.js:10-12 | a player with that id, or undefined when none has it |
| Selectors.SelectPlayerName | react-ui/src/features/selectors.js:16 | the name of a player with that id, a TypeError when there is none |
| Selectors.SelectPlayerStatus | react-ui/src/features/selectors.js:17 | the status of a player with that id, a TypeError when there is none |
| Selectors.SeatedPlayersReadBack | react-ui/src/features/selectors.js:16-19 | every player of the parsed game reads back with its user name and state |
| Updater.Initial | react-ui/src/features/GameUpdater.js:22-28 | no timer, not cancelled, nothing in flight |
| Updater.Schedule | react-ui/src/features/GameUpdater.js:50-51 | a new timer is pending with the given delay and becomes the current one |
| Updater.Check | react-ui/src/features/GameUpdater.js:74-78 | one hash request is sent |
| Updater.UpdateState | react-ui/src/features/GameUpdater.js:88-92 | one state request is sent |
| Updater.Start | react-ui/src/features/GameUpdater.js:38-41 | starting sends one join request, then one hash request |
| Updater.OnHashResolved | react-ui/src/features/GameUpdater.js:49-65 | unless cancelled, the next check is scheduled after 500 ms; a non-ok answer reloads the page; the state is fetched only when the hash moved |
| Updater.OnHashRejected | react-ui/src/features/GameUpdater.js:67-71 | unless cancelled, the next check is scheduled after 1000 ms |
| Updater.OnTimer | react-ui/src/features/GameUpdater.js:43-79 | a firing timer leaves the pending set and sends one hash request |
| Updater.OnUnmount | react-ui/src/features/GameUpdater.js:81-85 | stopping cancels the updater and clears the current timer |
| Updater.OnStateResolved | react-ui/src/features/GameUpdater.js:93-102 | the state is dispatched iff the answer is ok and has data |
| Updater.OnStateRejected | react-ui/src/features/GameUpdater.js:88-104 | a failed state request changes nothing else |
| Updater.StartIsJoinThenCheck | react-ui/src/features/GameUpdater.js:38-41 | starting from scratch sends exactly a join and a hash check, and satisfies the invariant |
| Updater.StepKeepsValid | react-ui/src/features/GameUpdater.js:43-85 | every event keeps at most one check pending or in flight, and none once cancelled |
| Updater.RunKeepsValid | react-ui/src/features/GameUpdater.js:43-85 | the invariant holds after any run of events |
| Updater.CancelledStaysQuiet | react-ui/src/features/GameUpdater.js:49-71 | after stopping, no event schedules a timer, sends a request or reloads |
| Updater.UnmountDisarms | react-ui/src/features/GameUpdater.js:81-85 | stopping leaves no timer pending |
| Updater.JoinsAppend | react-ui/src/features/GameUpdater.js:106-108 | join requests add up over concatenation |
| Updater.NoRejoin | react-ui/src/features/GameUpdater.js:54-57 | no event after the start sends another join |
| Updater.FetchOnlyWhenHashMoved | react-ui/src/features/GameUpdater.js:59-63 | a hash answer adds a request iff not cancelled and the hash moved; an unchanged hash adds none |
| Updater.DispatchOnlyOkState | react-ui/src/features/GameUpdater.js:93-102 | the state is dispatched iff the answer is ok and has data, and it is the dispatched value |
| Updater.GameUpdater.StartPolling | react-ui/src/features/GameUpdater.js:38-41 | the updater's state follows `Start` |
| Updater.GameUpdater.JoinGame | react-ui/src/features/GameUpdater.js:106-108 | one join request is sent |
| Updater.GameUpdater.CheckAndReschedule | react-ui/src/features/GameUpdater.js:43-79 | the updater's state follows `Check` |
| Updater.GameUpdater.SetTimer | react-ui/src/features/GameUpdater.js:50-51 | the updater's state follows `Schedule` |
| Updater.GameUpdater.UpdateStateRequest | react-ui/src/features/GameUpdater.js:88-92 | the updater's state follows `UpdateState` |
| Updater.GameUpdater.HashCheckResolved | react-ui/src/features/GameUpdater.js:49-65 | the updater's state follows `OnHashResolved` |
| Updater.GameUpdater.HashCheckRejected | react-ui/src/features/GameUpdater.js:67-71 | the updater's state follows `OnHashRejected` |
| Updater.GameUpdater.TimerFires | react-ui/src/features/GameUpdater.js:43-79 | the updater's state follows `OnTimer` |
| Updater.GameUpdater.StopPolling | react-ui/src/features/GameUpdater.js:81-85 | the updater's state follows `OnUnmount` |
| Updater.GameUpdater.StateFetchResolved | react-ui/src/features/GameUpdater.js:93-102 | the updater's state follows `OnStateResolved` |
| Updater.GameUpdater.StateFetchRejected | react-ui/src/features/GameUpdater.js:88-104 | the updater's state follows `OnStateRejected` |
| ApiUrls.ApiPath | react-ui/src/utils.js:17-21 | the path is `/api/<endpoint>` for a null tag and `/api/<tag>/<endpoint>` otherwise |
| ApiUrls.UndefinedTagIsSpelledOut | react-ui/src/utils.js:17-21 | an undefined tag is spelled "undefined" in the path, unlike null |
| ApiUrls.Query | react-ui/src/utils.js:23-30 | `temporary_id` comes first, then the extra parameters in order |
| ApiUrls.Lookup | react-ui/src/utils.js:23-30 | reading a parameter gives the first value with that key |
| ApiUrls.QueryReadsBack | react-ui/src/utils.js:23-30 | `temporary_id` always reads back as the module's own; every other key reads as among the extras |
| ApiUrls.ClientUtils.constructor | react-ui/src/utils.js:6 | `temporary_id` is fixed once when the module loads |
| ApiUrls.ClientUtils.MakeApiUrl | react-ui/src/utils.js:15-33 | the URL's path and query are those specified |
| ApiUrls.ClientUtils.SetConfig | react-ui/src/utils.js:8-12 | the config is posted to `game_config` as the `new_config` parameter, and reads back unchanged |
| ApiUrls.IsConfigDefault | react-ui/src/utils.js:36-46 | a config is default iff `role_weights` is null or missing and both numbers are null |
| ApiUrls.MissingKeysDiffer | react-ui/src/utils.js:36-46 | a missing `role_weights` counts as default, a missing number does not, and any set wolf count is not default |

## Left out

- The database and SQL query building: queries are filters over sequences. The session plumbing of `db_scoped` (backend/game.py:95-140) is modelled by its effect, not as a session: every scoped call, reads such as `get_game` included, commits the whole session when it returns, its callers' pending writes too, so an exception rolls back only what was written since the last scoped call returned. On a failing path the model therefore keeps what earlier scoped calls committed: the role wipe, the refreshed rows of `player_keepalive` and the effects of the actions already executed when `start_game` answers 400, and the effects played before an action raised during the resolution. The one failure that no nested commit precedes, the call of `process_actions` in `game_func` as written, drops the stored action (`Registration.SubmitAsWritten`).
- The update tag: `Touch` is called where the source calls `touch` and, for a failed start, once for the touch the outermost scoped call makes because the wipe modified the session. After an error raised inside the resolution the outermost call touches the game too; `Process.Resolved` says nothing about the tag, so that touch is not stated.
- Concurrency: `get_hash`'s asynchronous wait and time-out, and the lock in `user_id.py`. Only the immediate-return decision and the event table are modelled, and each call is atomic.
- Randomness and floating point: the draws, the shuffle, the fool's coin and the villager probability are oracle inputs. The `seed` that `start_game` draws for each dealt player (backend/game.py:556) is not modelled: none of the modelled code reads that column. `generate_name` reads a names file, so the generated name is a parameter.
- The MD5 algorithm: the digest is an uninterpreted 16-byte function.
- `WolfAction.immediate`'s team message (backend/roles/wolf.py:79-84): `send_team_message` branches on a role description's secret-chat setting, which the shown `RoleDescription` does not declare, and the wolf sets it to `True`, which matches neither chat type. The wolf's submission is modelled as posting nothing.
- Role descriptions (texts, button labels, display names, secret-chat settings) are data given as a parameter to the view derivation.
- `move_to_lobby`, `num_previous_stages`, `send_secret_message`, `get_messages`, `set_player_state`, `set_player_role`, `create_game` and `make_user` in backend/game.py are not part of this model: they lie outside the rules engine's core, except that `get_messages`' visibility filter is the one `FrontendParser.ChatOf` states.
- Teams.TeamHasWon: models the function as written, which never reports a win. The counter loop of backend/roles/teams.py:21-28 is modelled, with the count of living villagers as its invariant, and its count is then discarded as the source discards it; no win condition is stated for it.
- The FastAPI endpoints, the HTTP routing and the servers: a role's action function is modelled from its checks onwards.
- `console.log` and logging, the page's `document.baseURI`, and percent-encoding of query values.
- `Object.keys`' reordering of integer-like keys: the extra query parameters are an ordered list.
- Python's `uuid.UUID` parser is modelled for ASCII whitespace and the forms the server emits; other Unicode whitespace is not modelled.
- JavaScript's `toLowerCase` is modelled on ASCII letters only.
- The page reload on a non-ok hash answer is counted and does not tear the updater down; a rejected promise left unhandled changes nothing.
- `selectShowSecretChat`, the `myID` slice, the configuration dialog (`DistributionSetup.js`) and every render-only component.
- The game's update counter is an integer tag touched where the source touches the game, not a timestamp-based hash.
- Registration.Stored: stores the selected player's number. The handler writes the `selected_id` UUID it receives into the integer column `selected_player_id` (backend/roles/registration.py:87-92); the conversion the database would attempt is not modelled.
- GameState.HashReturnsImmediately: takes the current hash as a parameter, the game's update tag. `get_hash_now` for a missing game is not modelled: its `else 0` fallback is never returned, because the log line after it reads `g.id` (backend/game.py:400-403) and raises AttributeError when the game is missing.

## Findings

| source | as written | input that shows it | evidently intended | confidence | as-written member | corrected member |
|---|---|---|---|---|---|---|
| backend/roles/registration.py:104-106 | `process_actions()` is called without the stage and stage id it requires, so the TypeError rolls the submission back | a lone wolf submits a kill at night | the night is resolved with the current stage and stage id | not executed | Registration.LoneWolfKillIsLost | Registration.LoneWolfNightResolves |
| backend/frontend_parser.py:69 | `player.id` is read before the None check at lines 75-76, so a viewer who is not a player raises AttributeError | user 8 views a game whose only player is user 7 | a missing player yields None | not executed | FrontendParser.StrangerGetsAttributeError | FrontendParser.ParseGameToState |
| backend/frontend_parser.py:91 | `get_action_func_name` is called with two arguments but takes one, so every seated viewer raises TypeError | user 7 views the day of a one-villager game | the button's submit function is the role's action function name | not executed | FrontendParser.ViewerGetsTypeError | FrontendParser.ParseGameToState |
| react-ui/src/features/stateSlices/players.js:22-27 | `indexOf` is given a predicate, so the index is -1 and `splice(-1, 1)` removes the last player | removing "a" from the players ["a", "b"] | the player with that id is removed | not executed | ClientPlayers.RemoveDropsLastEntry | ClientPlayers.RemoveById |
