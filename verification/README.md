# Lasso: verified models of its protocol engine, template compiler and generators

Lasso implements the Liberty Alliance ID-FF 1.2 protocols (single sign-on and federation,
federation termination, single logout) in C, and carries a template compiler (EZT) and binding
generators in Python. This project models the parts with the hardest behaviour and proves what
they keep over every input, every run or every sequence of calls. To check it, run
`dafny verify dfyconfig.toml` in this directory.

| component | files | source |
|---|---|---|
| template compiler, rendering, interpreter | `EztSyntax`, `EztCompiler`, `EztGrammar`, `EztRender`, `EztInterpreter`, `EztCompletion` | `website/ezt.py` |
| what templates mean | `EztCompose`, `EztText`, `EztMeaning`, `EztBlocks` | `website/ezt.py` |
| single logout | `IdFf`, `LogoutModel`, `LogoutProperties`, `LogoutPropagation`, `LogoutExchange`, `LogoutProfile` | `lasso/id-ff/logout.c`, `session.c` |
| single sign-on | `LoginModel`, `LoginProperties`, `LoginExchange`, `LoginProfile` | `lasso/id-ff/login.c`, `federation.c`, `identity.c` |
| sign-on and the logout after it, two parties | `SignOnLogout` | `lasso/id-ff/login.c`, `logout.c`, `session.c` |
| federation and its termination, two parties | `DefederationModel`, `DefederationProfile`, `FederationProperties`, `NoticeExchange`, `Termination` | `lasso/id-ff/defederation.c`, `login.c`, `federation.c`, `profile.c` |
| artifacts | `Base64`, `UrlQuery`, `Artifact` | `lasso/id-ff/login.c`, `server.c`, `lasso/xml/tools.c` |
| qualified-name registry | `HashTable`, `Registry` | `lasso/registry.c` |
| binding generators | `NameGroups`, `GroupShape`, `GroupBuilder`, `CamelCase`, `ClassOrder` | `bindings/utils.py`, `bindings/bindings.py` |

## How the model is built

Objects whose methods update their fields are classes (`LogoutProfile`, `LoginProfile`,
`DefederationProfile`, `Context`, `GroupNode`, `BindingData`, `LassoRegistry`, `QuarkTable`). Each
of their calls is proved to do what a function on the object's state (`View()`) says, and the
properties over runs are lemmas about those functions. What a message means is said between the
two sides: what one side builds, received by the other, has exactly the stated effect there
(`LogoutExchange`, `LoginExchange`, `NoticeExchange`, `SignOnLogout`). What a template means is said of
its tokens and values, across compiler and interpreter (`EztText`, `EztMeaning`, `EztBlocks`). The objects carry them: every call of a
logout keeps `Valid()` (the saved exchange and the session tables are consistent) and
`PropagateLogout` is the whole loop on the object; a login remembers the last request as a ghost
field and its response calls ensure what acceptance means; `Termination` runs a notice between two
defederation objects; and a registry carries the string maps that it stands for. Signature results, metadata lookups, parsed
messages, fresh identifiers and SHA-1 are parameters of the calls. A traversal of a hash table is
given an arbitrary order of its keys.

Where the code and its intent part ways, the model follows the code:

- Session providers are enumerated from the table of name identifiers with a session index
  (`lasso/id-ff/session.c:543-584`), not from the assertions. A propagated logout therefore empties
  the session exactly when every remaining provider has such an entry
  (`LogoutPropagation.SingleLogoutCompletes`; `LogoutCanStop` is a logout that does not).
- A provider that denies a logout leaves the session like one that confirms it, but only a
  processed Success answers the first requester. The session can end empty with the answer still
  saved (`LogoutPropagation.LogoutPropagates`, `LogoutCanEndUnanswered`).
- `lasso_logout_process_response_msg` handles the status of a response only when no signature was
  found (`lasso/id-ff/logout.c:787-796`); every other verification result ends the call.
- `lasso_login_validate_request_msg` decides about a federation only under signature status 0
  (`lasso/id-ff/login.c:2637-2644`).
- A termination notice names the principal by the session's assertion when there is one
  (`lasso/id-ff/profile.c:106-156`). After a one-time sign-on that is not the federated name, so the
  peer does not recognise it, and only the sender forgets the federation. "A federated service
  provider has its mirror at the identity provider" is therefore false of some runs:
  `FederationProperties.MirrorCanBreak` gives such runs for both senders, the exact conditions for
  one exchange are `SpTerminationExactly` and `IdpTerminationExactly`, and `RunExactly` says of whole
  runs that the sides stay mirrored if and only if every exchange is safe where it happens.
- A `for` block inside a `for` block over the same reference removes the outer loop's entry
  (`website/ezt.py:523`), after which compile-time and run-time lookup can differ
  (`EztCompletion.LookupsCanDiffer`). But then the run does not complete: for all templates and data,
  `EztCompletion.ResolvedRunAgrees` says that the two complete together and with the same outcome.
  With distinct names, failing runs agree too (`EztInterpreter.DistinctRunAgrees`).
- Two `else` directives in one block: the section before the first is gone
  (`EztCompose.SecondElse`); in a `format` block the section before an `else` is gone
  (`EztCompose.FormatElse`). All other templates keep their text (`EztText.TextIsKept`).
- `lasso_registry_add_functional_mapping` accepts a NULL function, although its documentation
  announces an error for invalid arguments. Registering the same pair again is then accepted too,
  and the insertion meets an equal key. The record is both key and value of the table, which frees
  the value it replaces and keeps the old key (`lasso/registry.c:163-173`): from then on the table
  holds a key in freed memory. The model marks the registry as dangling and leaves the answers of
  its calls undefined. `Registry.MeetsEqualKeyExactly` says that this is the only way to get there,
  `Registry.NullTwice` gives the calls, and `Registry.RunAgrees` says that the registry answers as
  the maps do exactly as long as it has not happened.
- The return address of a termination carries the relay state unescaped
  (`lasso/id-ff/defederation.c:408-415`). It is read back from there if and only if it has neither a
  separator nor an escape sequence (`NoticeExchange.ReturnAddressExactly`).
- `order_class_hierarchy` does not end when a pass finds no candidate, as for a struct that is its
  own parent (`ClassOrder.NeverOrdered`). Its model requires that a good order exists, which is
  proved to be exactly the condition under which the loop ends.
- `lasso_xmlURIEscapeStr` reads through its argument before `lasso_login_build_artifact_msg` tests
  for an absent relay state (`lasso/xml/tools.c:2563`, `lasso/id-ff/login.c:991-1000`). The model has
  both branches of the query as written.

## Model

| member | source | states |
|---|---|---|
| `EztCompiler.Feed` | website/ezt.py:348-435 | after every token the machine is valid: the open `for` names and the printers mirror the open blocks, and the stacked indices are ordered and in range of the program |
| `EztCompiler.FeedFollowsParser` | website/ezt.py:348-435 | one step of the stack machine changes nothing in what the recursive-descent parser makes of the machine's open blocks and the remaining tokens, error or tree |
| `EztCompiler.HandleToken` | website/ezt.py:348-435 | cutting the program at stacked positions, stacking and unstacking, as the loop body does for one token, is exactly one machine step, whose text and meaning are those of `EztText.TextIsKept` and `EztMeaning` |
| `EztCompiler.Compile` | website/ezt.py:325-440 | for every token sequence, the stack compiler returns exactly the tree, or exactly the error, of the recursive-descent parser of the block grammar, whose text is that of the tokens (`EztText.TextIsKept`) and whose error is that of the first wrong token (`EztGrammar.FirstFault`) |
| `EztGrammar.CompilesExactly` | website/ezt.py:348-440 | a template compiles if and only if every directive has the arguments it needs and blocks, elses and ends nest, both said of the tokens alone; it fails for unclosed blocks, or for an unmatched end, exactly when only the closing is missing, or when that end is the first wrong token |
| `EztGrammar.FeedExactly` | website/ezt.py:348-435 | a token is accepted if and only if its arguments are right and an else or end has an open block, and it changes the number of open blocks by one or not at all |
| `EztRender.RenderThenCompile` | website/ezt.py:348-440 | compiling the rendered tokens of any well-formed program gives back that program |
| `EztRender.CompileRenderCompile` | website/ezt.py:348-440 | every compiled program is well-formed, so rendering and compiling it again is the identity |
| `EztRender.LexItems` | website/ezt.py:361-435 | a directive written out as its items is read back as itself, if and only if it is not a print without items or with a command word as its first item |
| `EztInterpreter.SameValue` | website/ezt.py:539-627 | with exactly the compile-time loops running, the prefix chosen at compile time picks the object that run-time lookup by the longest running prefix picks |
| `EztInterpreter.StepsAgree` | website/ezt.py:442-530 | executing steps compiled under given loop names gives the same output, definitions and error under both lookups, and restores the table of running loops |
| `EztInterpreter.LoopAgrees` | website/ezt.py:513-523 | every round of a loop runs its body with the loop's index in range, agrees under both lookups, and the loop removes its entry at the end |
| `EztInterpreter.DistinctRunAgrees` | website/ezt.py:310-323 | a compiled template whose loops do not reuse a running name runs alike under both lookups, errors included, on all data, with no loop lost or left running |
| `EztCompletion.StaysGone` | website/ezt.py:442-523 | no completed block brings back the entry of a loop that has been removed |
| `EztCompletion.StepsTogether` | website/ezt.py:442-530 | steps run alike under both lookups with the loops restored, or under both the run has failed or has lost the entry of an enclosing loop |
| `EztCompletion.ResolvedRunAgrees` | website/ezt.py:310-323 | for every template that compiles and all data: the run with references resolved at compile time completes if and only if the run by names completes, and if and only if the strict run completes, which also stops at a loop over the name of a running loop; then the outcomes are equal and no loop is left running |
| `EztCompletion.ReuseNeverCompletes` | website/ezt.py:513-523 | a run that enters a loop over the name of a running loop, at any depth of blocks, does not complete |
| `EztCompletion.ReuseExample` | website/ezt.py:513-523 | a template with a loop over a name inside a loop over it, and data on which its run loses the outer loop |
| `EztCompletion.LookupsCanDiffer` | website/ezt.py:587-627 | a template that reads a name after a loop over it inside a loop over it, and data on which both runs fail but with different errors |
| `EztInterpreter.Context.Execute` | website/ezt.py:442-451 | writes and updates exactly what the functional interpreter computes, error included; what that is for each directive is said by the laws of `EztMeaning` and `EztBlocks` |
| `EztInterpreter.Context.ExecuteStep` | website/ezt.py:453-530 | the same for one step: printing, the three conditions with their two sections, loops and definitions |
| `EztInterpreter.Context.CmdFor` | website/ezt.py:513-523 | the loop in place, with its entry added, counted up and deleted, ends in the state and error of the functional loop |
| `EztInterpreter.Context.CmdDefine` | website/ezt.py:525-530 | the section's output becomes the definition and nothing reaches the caller's writer |
| `EztGrammar.FirstFault` | website/ezt.py:348-440 | a template with a wrong token fails with the error of the first one: wrong count, missing or unreadable reference, unknown format, constant include, or stray else or end |
| `EztCompose.SectionThen` | website/ezt.py:348-435 | one template after another compiles to one program after another |
| `EztCompose.SecondElse` | website/ezt.py:365-374 | a block with two elses compiles as if the section before the first and that else were not there |
| `EztCompose.FormatCompiles` | website/ezt.py:382-407 | a format block compiles to what it holds, compiled under the printer that it names |
| `EztCompose.FormatElse` | website/ezt.py:365-389 | in a format block the section before an else is gone |
| `EztText.TextIsKept` | website/ezt.py:348-435 | for every template that compiles, with at most one else per block and none in a format block: the literal text of the program, read through all sections, is the text of the tokens, with an opening bracket for every bracket token |
| `EztMeaning.SequenceRuns` | website/ezt.py:442-451 | one template after another writes one output after another, unless the first fails |
| `EztMeaning.TextRuns` | website/ezt.py:350-360 | text is written as it stands, a bracket token as an opening bracket |
| `EztMeaning.QuotedValue` | website/ezt.py:539-585 | a quoted argument is its text |
| `EztMeaning.NameValue` | website/ezt.py:587-627 | outside loops a dotted name has a value if and only if its first part is defined, or else given, and the other parts lead from there to an object; it is that object, with a number as its digits and None as empty text |
| `EztMeaning.LoopValue` | website/ezt.py:587-627 | inside loops the longest prefix that names a loop is its current item, and the other parts lead on from there |
| `EztMeaning.PrintRuns` | website/ezt.py:629-662 | printing one argument writes its text under the printer of the place |
| `EztMeaning.ShownMeans` | website/ezt.py:453-461 | the raw printer writes text as it is; the others write text without angle brackets from which it can be read back |
| `EztMeaning.PrintSeveralRuns` | website/ezt.py:629-662 | printing several arguments writes the first with the values of the others put in |
| `EztMeaning.SubstituteNumber` | website/ezt.py:646-657 | a percent sign and a number stand for the argument of that number counted from 0, and for a remark if there is none |
| `EztMeaning.SubstitutePercent` | website/ezt.py:646-657 | two percent signs stand for one |
| `EztMeaning.IfAnyRuns` | website/ezt.py:471-511 | a compiled if-any with sections t and f runs as t if some argument has a value that is not empty, as f if all are empty; the arguments are read in order up to the first that is not empty, and one that cannot be read stops the run |
| `EztMeaning.IfIndexRuns` | website/ezt.py:481-511 | a compiled if-index runs its first section if the position of the loop's current item is even, odd, first, last or the given number, and otherwise its second |
| `EztMeaning.IsRuns` | website/ezt.py:496-511 | a compiled is runs its first section if the two texts have the same letters without regard to case, and otherwise its second |
| `EztMeaning.IfWithoutElse` | website/ezt.py:502-511 | a condition without else runs its section or nothing |
| `EztMeaning.NegativeArgIs` | website/ezt.py:555-562 | the first parts of references on which the compiler raises an index error are exactly "arg-" followed by a positive number |
| `EztBlocks.WritesFrom` | website/ezt.py:442-451 | a program writes the same whatever has been written before it |
| `EztBlocks.ForRuns` | website/ezt.py:513-523 | a compiled for writes the outputs of its rounds in order, one for each item with that item bound to the name, passes definitions on from round to round and leaves the name unbound |
| `EztBlocks.ForNeedsList` | website/ezt.py:513-517 | a loop over a text, over another value that is no list, or over a name without a value fails with its error before anything is written |
| `EztBlocks.ForStops` | website/ezt.py:513-523 | a round that fails stops the loop with its error, and what was written until then stays |
| `EztBlocks.ForPrints` | website/ezt.py:513-523 | a loop that prints its own name prints the items of the list one after the other |
| `EztBlocks.DefineRuns` | website/ezt.py:525-530 | a compiled define writes nothing and binds the name to the output of its section |
| `EztBlocks.DefinedIsPrinted` | website/ezt.py:525-530 | printing a name after defining it writes what the section wrote, whatever is given under that name |
| `IdFf.SessionOkKept` | lasso/id-ff/session.c:346-676 | adding and removing assertions keeps the name identifier table within the assertions, with no empty entry |
| `LogoutProperties.ValidateExactly` | lasso/id-ff/logout.c:951-1097 | validation returns 0 if and only if the request came by SOAP or redirect, with a verified signature, from a known provider that has an assertion, with a name identifier that (when federated) belongs to the federation with that provider, and, for a service provider over SOAP, every other provider with an assertion supports SOAP logout |
| `LogoutProperties.ValidateAllOrNothing` | lasso/id-ff/logout.c:951-1097 | on 0 exactly the requester leaves the session and the answer is Success; on any error the session and the saved exchange are unchanged, and the response to a known provider's request is missing or not Success |
| `LogoutProperties.CallKeeps` | lasso/id-ff/logout.c:474-1097 | every call keeps the three saved references all set or all absent, consistent with each other and holding a Success answer, and removes at most one provider from the session |
| `LogoutProperties.CallKeepsTables` | lasso/id-ff/logout.c:474-1097 | every call keeps the name identifier table within the assertions |
| `LogoutProperties.RunKeeps` | lasso/id-ff/logout.c:474-1097 | the same over every sequence of calls, with the number of lost providers bounded by the number of calls |
| `LogoutProperties.NextVisits` | lasso/id-ff/logout.c:474-499 | a call returns the first provider still to visit, skipping the first requester, and only moves the index |
| `LogoutProperties.EnumerationIsComplete` | lasso/id-ff/logout.c:474-499 | after a reset the calls return every listed provider except the first requester, once and in order, wherever it stands, and then nothing for ever |
| `LogoutPropagation.ExchangeEffect` | lasso/id-ff/logout.c:513-882 | whatever the metadata and the answer, and whichever provider the answer names: asking may remove the provider asked, the answer may remove the provider it names, nobody else leaves, and the saved exchange is restored if and only if a service provider's Success leaves the session without assertions |
| `LogoutPropagation.AnswerForAnother` | lasso/id-ff/logout.c:777-784 | an answer to the request to one provider that names another removes the other |
| `LogoutPropagation.PropagateFrom` | lasso/id-ff/logout.c:513-882 | from the middle of a propagation, the session ends as visiting the remaining providers in turn leaves it, and the saved exchange is restored if and only if some visit closes the session |
| `LogoutPropagation.LogoutPropagates` | lasso/id-ff/logout.c:474-882 | under arbitrary answers and metadata and in any order: the session ends as visiting every listed provider in turn leaves it, and the saved exchange is back if and only if some visit brings a service provider's Success and leaves no assertion |
| `LogoutPropagation.HonestVisits` | lasso/id-ff/logout.c:739-882 | where every answer names its sender, the visits remove exactly the providers that leave, and one of them closes the session if and only if everybody leaves and the last to leave confirms |
| `LogoutPropagation.HonestLogoutPropagates` | lasso/id-ff/logout.c:474-882 | the propagation in closed form for such answers, its condition stated on the session before it |
| `LogoutPropagation.SingleLogoutCompletes` | lasso/id-ff/logout.c:474-1097 | for sessions of any size, with every provider answering Success: the propagated logout empties the session if and only if every other provider has a session index entry; then provider, request and Success answer of the first requester are back, otherwise they stay saved |
| `LogoutPropagation.SavedExactly` | lasso/id-ff/logout.c:1083-1094 | an accepted request is saved if and only if it comes from a service provider and leaves others in the session |
| `LogoutPropagation.LogoutCanStop` | lasso/id-ff/session.c:543-584 | a session whose second provider has no session index entry keeps it, and the first requester stays unanswered |
| `LogoutPropagation.LogoutCanEndUnanswered` | lasso/id-ff/logout.c:798-877 | a provider that denies the request leaves the session empty with the first requester unanswered |
| `LogoutExchange.RequestBuilt` | lasso/id-ff/logout.c:513-643 | the request to a known provider with an entry is issued by the asker, names the principal as the asker's session does for the receiver, and carries the new identifier and the asker's relay state |
| `LogoutExchange.HandledExactly` | lasso/id-ff/logout.c:655-1097 | a request is processed and validated with 0 if and only if its issuer is known, its signature verified, its issuer's assertion and (for a federated name) federation are held by the receiver, and for a service provider over SOAP no other provider lacks SOAP |
| `LogoutExchange.OnlyVerified` | lasso/id-ff/logout.c:655-1097 | a request with any other signature result is refused by validation too, with that result and an answer that says so |
| `LogoutExchange.HandledAnswer` | lasso/id-ff/logout.c:951-1097 | an accepted request takes the asker from the session, records its name identifier and relay state, and is answered by a Success to that request, in place or saved |
| `LogoutExchange.RequestIsAccepted` | lasso/id-ff/logout.c:513-1097 | the request that an asker builds for p, received at p with a verified signature, is accepted exactly when p recognises the asker and the gate on SOAP lets it through |
| `LogoutExchange.AnswerLogsOut` | lasso/id-ff/logout.c:513-1097 | an identity provider's request to a service provider that recognises it logs the asker out there, and the answer, processed by the asker, logs the service provider out |
| `LogoutExchange.RefusedBecause` | lasso/id-ff/logout.c:951-1097 | which error and which status answer each reason of refusal |
| `LogoutExchange.RefusalArrives` | lasso/id-ff/logout.c:798-856 | what each refusal does at the asker: denial and unknown federation take the provider from the session, unsupported SOAP only for an identity provider that can be asked by redirect, any other changes nothing |
| `LogoutExchange.GivingUpAnswers` | lasso/id-ff/logout.c:567-592 | a provider without the redirect profile is given up, and the first requester's answer is put in place |
| `LogoutProfile.LogoutProfile.CheckSoapSupport` | lasso/id-ff/logout.c:1123-1149 | whatever the traversal order, the flag stays set exactly when every other provider with an assertion supports SOAP logout |
| `LogoutProfile.LogoutProfile.Validate` | lasso/id-ff/logout.c:951-1097 | for every traversal order, returns 0 exactly on the requests that may log out, then removes exactly the requester, changes the object as the validation function says and keeps the invariant |
| `LogoutProfile.LogoutProfile.GetNextProviderID` | lasso/id-ff/logout.c:474-499 | returns and moves as the enumeration function says, keeping the invariant |
| `LogoutProfile.LogoutProfile.ResetProviderIDIndex` | lasso/id-ff/logout.c:893-899 | takes a new list of the providers, starts at its beginning and keeps the invariant |
| `LogoutProfile.LogoutProfile.InitLogoutRequest` | lasso/id-ff/logout.c:513-643 | when the provider named is known, has an entry and supports the method: the request names the object's own server as its issuer and carries the new identifier, the session's name for that provider and the relay state; otherwise changes the object as the request function says, giving up on providers without a logout profile included; keeps the invariant |
| `LogoutProfile.LogoutProfile.ProcessResponseMsg` | lasso/id-ff/logout.c:738-882 | changes the object as the response function says, on every status and signature result, and keeps the invariant |
| `LogoutProfile.LogoutProfile.ProcessRequestMsg` | lasso/id-ff/logout.c:655-714 | changes the object as the request-processing function says and keeps the invariant |
| `LogoutProfile.LogoutProfile.PropagateLogout` | lasso/id-ff/logout.c:474-882 | the loop over next-provider, init-request and process-response on the object ends as the visits say, under arbitrary answers; where every answer names its sender, exactly the providers that leave are gone and the first requester's exchange is back in the fields if and only if everybody leaves and the last confirms |
| `LogoutProfile.LogoutProfile.LogoutEverywhere` | lasso/id-ff/logout.c:474-1097 | validation and propagation as one: accepted exactly on the requests that may log out, and with every provider answering Success the fields end as a completed logout, or with the exchange saved when a provider without a session index entry remains |
| `LoginProperties.CallRespectsConsent` | lasso/id-ff/login.c:471-622 | a call changes the federations only by adding one for the requester, under policy federated or any and with explicit or obtained consent |
| `LoginProperties.RunRespectsConsent` | lasso/id-ff/login.c:471-622 | over every run, a federation that is there was there at the start or was added by a call with such a policy and consent |
| `LoginProperties.ValidationMeans` | lasso/id-ff/login.c:2600-2647 | with signature status 0, a 0 result means that the requester is federated and named by the federation's local identifier, or that the policy is one-time and the federations are unchanged |
| `LoginProperties.RequestIdIsLast` | lasso/id-ff/login.c:1520-1596 | the remembered request identifier is that of the last successfully initialised request of the run |
| `LoginProperties.AcceptedResponse` | lasso/id-ff/login.c:624-738 | an accepted assertion answers the remembered request, has been verified, and gives the name identifier |
| `LoginProperties.AcceptsOnlyTheLastAnswer` | lasso/id-ff/login.c:2180-2364 | over every run at a service provider, a response accepted with an assertion answers the last initialised request, under signature status 0, and the name identifier comes from it |
| `LoginExchange.GrantedExactly` | lasso/id-ff/login.c:471-622 | with a verified signature, a request is granted if and only if the principal is authenticated and the policy is met by the federation there is or by consent; and exactly when the principal is federated afterwards, and under a one-time policy |
| `LoginExchange.GrantLeaves` | lasso/id-ff/login.c:534-622 | validation leaves the session, the other federations and an existing one alone; a new one names the principal by the new identifier |
| `LoginExchange.AskedExactly` | lasso/id-ff/login.c:471-525 | the principal must be asked for consent exactly when consent makes a difference to the validation; under an unknown policy asking is in vain |
| `LoginExchange.RequestSentExactly` | lasso/id-ff/login.c:1520-1596 | exactly when an authentication request can be sent, to whom, and that its identifier is then the remembered one |
| `LoginExchange.AuthnAcceptedExactly` | lasso/id-ff/login.c:2180-2228 | an authentication response is accepted if and only if it is a well-formed Success of a known provider with a verified signature whose assertion, if any, answers the remembered request and names the principal |
| `LoginExchange.SoapAcceptedExactly` | lasso/id-ff/login.c:2306-2364 | a response to an artifact is accepted if and only if it is a Success that matches the request, and its assertion, if any, is for the remembered request, names the principal, and is verified by the response's signature or has the remote provider as issuer and its own verified signature |
| `LoginExchange.RefusalArrives` | lasso/id-ff/login.c:624-675 | which error the service provider returns for each reason for which the identity provider refused |
| `LoginExchange.AnswerOf` | lasso/id-ff/login.c:328-429 | a granted answer is a Success with an assertion whose issuer is the identity provider, which answers the request and gives the principal's name |
| `LoginExchange.SignOnIsAccepted` | lasso/id-ff/login.c:328-738 | the service provider's own request, received with a verified signature, is answered exactly when it is granted; the answer, received with a verified signature, is accepted, and gives the service provider the name that was given |
| `LoginExchange.ArtifactSignOnIsAccepted` | lasso/id-ff/login.c:1653-1731 | the same by artifact in an unsigned response, by the assertion's own signature |
| `SignOnLogout.GrantedSignsOn` | lasso/id-ff/login.c:777-842 | every granted request makes a sign-on that the service provider accepts and records |
| `SignOnLogout.SignOnAllowsLogout` | lasso/id-ff/session.c:91-206 | after a sign-on both sides hold what a logout between them needs, by the name that was given, if and only if the service provider supports logout |
| `SignOnLogout.IdpLogsOut` | lasso/id-ff/logout.c:513-1097 | after such a sign-on the identity provider's logout request is accepted at the service provider and its answer at the identity provider, and neither session holds the other |
| `SignOnLogout.SpLogsOut` | lasso/id-ff/logout.c:513-1097 | after such a sign-on the service provider's logout request by redirect is accepted at the identity provider, whoever else is signed on |
| `LoginProfile.LoginProfile.AskForConsent` | lasso/id-ff/login.c:471-525 | the sequence of tests decides as the consent function does |
| `LoginProfile.LoginProfile.DecideFederation` | lasso/id-ff/login.c:534-622 | changes identity, policy, name identifier and status as the federation function says |
| `LoginProfile.LoginProfile.ValidateRequestMsg` | lasso/id-ff/login.c:2600-2647 | changes the object as the validation function says; a federation appears only with policy and consent, on the object's own identity |
| `LoginProfile.LoginProfile.BuildAssertionMsg` | lasso/id-ff/login.c:328-429 | builds the assertion, session entry and response that the function gives |
| `LoginProfile.LoginProfile.AcceptSsoMsg` | lasso/id-ff/login.c:777-842 | records the assertion and the federation that the function gives |
| `LoginProfile.LoginProfile.InitAuthn` | lasso/id-ff/login.c:1520-1596 | chooses the provider as the function says and, on 0, makes the new identifier the last request |
| `LoginProfile.LoginProfile.InitRequest` | lasso/id-ff/login.c:1653-1731 | reads an artifact message with its relay state, resolves its issuer and prepares the request as the functions say, on every error |
| `LoginProfile.LoginProfile.ProcessStatusAndAssertion` | lasso/id-ff/login.c:624-738 | checks status, issuer, request identifier and signature as the function says, whose exact conditions are those of the two calls below |
| `LoginProfile.LoginProfile.ProcessAuthnResponseMsg` | lasso/id-ff/login.c:2180-2228 | returns 0 if and only if the message is a well-formed Success of a known provider with a verified signature, whose assertion, if any, answers the last request initialised on this object and names the principal; then a signature was verified and the name identifier is the assertion's; changes the object, its relay state included, as the function says |
| `LoginProfile.LoginProfile.ProcessResponseMsg` | lasso/id-ff/login.c:2306-2364 | returns 0 if and only if the message is a Success that matches the request and its assertion, if any, answers the last authentication request, names the principal and comes from the remote provider, by the response's signature or by its own |
| `DefederationProfile.DefederationProfile.GetNameIdentifier` | lasso/id-ff/profile.c:106-156 | the session's assertion first, then the remote and local names of the federation under the provider's affiliation or identifier |
| `DefederationProfile.DefederationProfile.InitNotificationMsg` | lasso/id-ff/defederation.c:165-291 | chooses the federation, builds the notice and forgets the peer as the function says |
| `DefederationProfile.DefederationProfile.ProcessNotificationMsg` | lasso/id-ff/defederation.c:307-357 | changes the object as the function says |
| `DefederationProfile.DefederationProfile.ValidateNotificationMsg` | lasso/id-ff/defederation.c:368-450 | verifies the name, forgets the sender and sets the return address with its relay state as the function says |
| `FederationProperties.MirrorsVerifyAlike` | lasso/id-ff/federation.c:110-155 | an identifier verifies against one side of a mirrored pair if and only if it verifies against the other |
| `FederationProperties.TerminateResult` | lasso/id-ff/defederation.c:165-450 | the outcome of a delivered notice: the sender always forgets, the receiver exactly when the name sent verifies against its federation |
| `FederationProperties.SpTerminationExactly` | lasso/id-ff/defederation.c:165-450 | a termination started at the service provider leaves neither side federated if and only if its session does not name the principal by a one-time identifier |
| `FederationProperties.IdpTerminationExactly` | lasso/id-ff/defederation.c:165-450 | a termination started at the identity provider keeps the mirror if and only if the service provider is not federated or the identity provider's session does not name the principal by a one-time identifier |
| `FederationProperties.SignOnKeeps` | lasso/id-ff/login.c:328-842 | a sign-on, with its answer delivered or lost, keeps the two-party invariant |
| `FederationProperties.ExchangeKeeps` | lasso/id-ff/login.c:328-842 | every exchange keeps the invariant (a federated service provider has its mirror at the identity provider), except an identity provider's termination of a federated principal that its session names by a one-time identifier |
| `FederationProperties.RunKeeps` | lasso/id-ff/login.c:328-842 | the invariant holds after every exchange of a run as long as the exchanges before it were safe |
| `FederationProperties.RunExactly` | lasso/id-ff/defederation.c:165-450 | over every run of well-formed exchanges: the two sides are mirrored after each of them if and only if no exchange is an identity provider's termination of a federated principal that its session names by a one-time identifier |
| `FederationProperties.SignOnFederates` | lasso/id-ff/login.c:328-842 | a delivered sign-on under the federated policy, with consent, leaves both sides federated and mirrored, when the registered identifiers have the federated format |
| `FederationProperties.OneTimeThenTerminationBreaks` | lasso/id-ff/profile.c:106-156 | from every state with a federated principal, a one-time sign-on followed by a termination started at the identity provider leaves the service provider federated alone |
| `FederationProperties.OneTimeThenSpTermination` | lasso/id-ff/profile.c:106-156 | from every state with a federated principal, a one-time sign-on followed by a termination started at the service provider leaves the identity provider federated alone |
| `FederationProperties.MirrorCanBreak` | lasso/id-ff/profile.c:106-156 | concrete runs of three exchanges, from two providers that hold nothing: after the identity provider's termination the service provider is federated alone, and after the service provider's the identity provider is |
| `NoticeExchange.SentExactly` | lasso/id-ff/defederation.c:165-291 | a notice to a known provider is sent if and only if there is a federation with it, a name from the session or the federation, and support for the method |
| `NoticeExchange.NoticeNames` | lasso/id-ff/profile.c:106-156 | a notice names the principal as the session does, and otherwise, between mirrored federations, by the receiver's own name before the sender's |
| `NoticeExchange.NoticeAcceptedExactly` | lasso/id-ff/defederation.c:307-450 | a verified notice is accepted if and only if its sender is known, it names the principal by an identifier of the federation with the sender and a redirected one has a return address; then exactly the sender is gone from identity and session |
| `NoticeExchange.UnverifiedNotice` | lasso/id-ff/defederation.c:307-357 | a notice with another signature result returns it and leaves identity and session alone |
| `NoticeExchange.NoticeReturns` | lasso/id-ff/defederation.c:384-415 | a redirected notice sends the principal back with the sender's relay state, a notice by SOAP nowhere |
| `NoticeExchange.ReturnAddressExactly` | lasso/id-ff/defederation.c:408-415 | the relay state is read back from the return address if and only if it has no separator and no escape sequence, whatever query the address has |
| `Termination.Notice` | lasso/id-ff/defederation.c:165-450 | a notice between two live objects leaves the identities, sessions and results of the two-party termination |
| `Termination.TerminateAtSp` | lasso/id-ff/defederation.c:165-450 | the service provider's object forgets exactly the identity provider; the identity provider's object forgets exactly the service provider if and only if the sender's session had no one-time name; the invariant between the objects is kept |
| `Termination.TerminateAtIdp` | lasso/id-ff/defederation.c:165-450 | the identity provider's object forgets the service provider, and the objects stay mirrored exactly under the stated condition |
| `Base64.DecodeEncode` | lasso/id-ff/login.c:859 | base64 decoding undoes encoding for all bytes |
| `Base64.EncodedBits` | lasso/id-ff/login.c:859 | every group of four characters holds the 24 bits of three bytes, the first highest, with zeros and padding beyond the end, and there is no other group |
| `Base64.Alphabet` | lasso/id-ff/login.c:859 | the characters are those of table 1 of RFC 4648 in its order |
| `UrlQuery.UnescapeEscape` | lasso/xml/tools.c:2552-2589 | unescaping undoes escaping for every text of non-zero bytes |
| `UrlQuery.HexDigits` | lasso/xml/tools.c:2577-2583 | the digits of escape sequences are 0 to 9 and A to F |
| `UrlQuery.EscapedExactly` | lasso/xml/tools.c:2552-2589 | a byte stands for itself exactly if it is a letter, a digit or one of four signs, and any other becomes a percent sign and its two hexadecimal digits |
| `UrlQuery.EscapeString` | lasso/xml/tools.c:2552-2589 | the second pass fills a buffer of exactly the length counted by the first, with the escaped text and a NUL |
| `UrlQuery.PiecesSplit` | lasso/xml/tools.c:1150-1192 | the first separator cuts off the first field and leaves the fields of the rest |
| `UrlQuery.UrlencodedToStrings` | lasso/xml/tools.c:1150-1192 | the array has one unescaped field per piece between separators and a final NULL, all writes in range |
| `Artifact.QueryReadBack` | lasso/id-ff/login.c:990-1007 | artifact and relay state are read back from the query, whatever bytes they hold |
| `Artifact.ArtifactRoundTrip` | lasso/id-ff/login.c:844-865 | for every issuer, handle, relay state, buffer content and table order, by query or form, the artifact decodes to the 42 bytes built, the request goes to the issuer and a relay state in the query is read back, when no other known provider has the issuer's succinct identifier |
| `Artifact.ResolvesExactly` | lasso/id-ff/server.c:520-560 | resolution gives the issuer in every table order if and only if it is known and no other known provider shares its succinct identifier |
| `Artifact.EarlierContentExactly` | lasso/id-ff/login.c:1699-1713 | what the 43-byte buffer held before plays no part if and only if the text is undecodable, decodes to at least 22 bytes, or has a wrong byte in its type code; the empty text is read from the buffer alone |
| `Artifact.BuildArtifact` | lasso/id-ff/login.c:844-865 | the bytes copied into the buffer are type code, succinct identifier and handle |
| `Artifact.ReadQuery` | lasso/id-ff/login.c:1680-1689 | the loop returns the last field of each key |
| `Artifact.GetProviderIDFromHash` | lasso/id-ff/server.c:520-560 | the traversal returns the first key with the hash |
| `Artifact.ResolveArtifact` | lasso/id-ff/login.c:1699-1716 | decoding within the buffer, the checks and the resolution, with the error cases |
| `HashTable.InsertLookup` | lasso/registry.c:98-150 | an insertion is seen under its own key and no other, whatever keys share its hash |
| `Registry.NeverInterned` | lasso/registry.c:218-258 | the tables hold nothing under a string that has never been interned, so the shortcuts are sound |
| `Registry.InterningKeeps` | lasso/registry.c:277-330 | interning more strings, by any part of the program, changes nothing that the registry holds |
| `Registry.GetAgrees` | lasso/registry.c:247-266 | a lookup over quarks answers as the string maps do: translation function first, else direct entry |
| `Registry.RunAgrees` | lasso/registry.c:193-330 | over every sequence of calls, mixed with interning elsewhere: the registry stays sound if and only if no call replaces a NULL function, and then all answers and return codes are those of the string maps |
| `Registry.NewRegistryAgrees` | lasso/registry.c:159-176 | the same from a new registry, whatever has been interned before |
| `Registry.AcceptedIsReturned` | lasso/registry.c:277-294 | an accepted direct mapping is returned by the next lookup |
| `Registry.AnswersLast` | lasso/registry.c:247-330 | an answer stays the same over every run that replaces no NULL function and registers no translation function between its namespaces |
| `Registry.MeetsEqualKeyExactly` | lasso/registry.c:277-330 | a call on a sound registry answers as the maps do, and its insertion meets an equal key, leaving a freed key behind, if and only if it registers a pair again whose function is NULL |
| `Registry.NullTwice` | lasso/registry.c:310-330 | registering any pair twice with a NULL function is accepted both times and leaves the registry dangling |
| `Registry.InsertionsAreFresh` | lasso/registry.c:277-330 | in a run where every registration gives a function, no insertion meets an equal key |
| `Registry.LassoRegistry.GetMappingOf` | lasso/registry.c:247-266 | answers as the string maps that the object stands for |
| `Registry.LassoRegistry.AddDirectMapping` | lasso/registry.c:277-294 | interns in order and inserts as the function says, and the object then stands for the maps of the specified addition, with both error codes |
| `Registry.LassoRegistry.AddFunctionalMapping` | lasso/registry.c:310-330 | the same for translation functions, unless a NULL function is replaced, which leaves the object dangling |
| `NameGroups.ComputeCommonPrefix` | bindings/utils.py:107-115 | of a name and its extension the whole name; otherwise the longest shared prefix that is empty, one character, or ends with an underscore |
| `NameGroups.CommonPrefixIs` | bindings/utils.py:107-115 | the common prefix of two names is the shorter one if the other extends it, and otherwise the longest shared prefix that is empty, one character, or ends with an underscore |
| `NameGroups.InsertOk` | bindings/utils.py:131-150 | one insertion keeps levels increasing and all leaves of an open group in agreement; the popping loop stops at the root |
| `NameGroups.GroupIsPrefixTree` | bindings/utils.py:131-150 | for every list, the leaves read left to right are the sorted input, nested levels strictly increase, and the leaves under a level-u group share their first u characters; `GroupShape.GroupJoinsNeighbours` says which names each group joins |
| `NameGroups.PrintedGroupsReadBack` | bindings/utils.py:117-150 | refilling the blanks line by line from the printed groups of space-free names returns the sorted names |
| `GroupShape.GroupJoinsNeighbours` | bindings/utils.py:131-150 | for every list, the innermost group around two neighbours of the sorted names has exactly the level of their common prefix |
| `GroupShape.PrintedLines` | bindings/utils.py:117-150 | for every list, the first sorted name is printed in full and every other with exactly its common prefix with the one before replaced by blanks |
| `GroupShape.AtMostIs` | bindings/utils.py:131-132 | names are sorted with a name before its extensions, and otherwise by the first character in which they differ |
| `GroupBuilder.PopPile` | bindings/utils.py:131-150 | popping the aliased pile keeps it the path to the innermost open group |
| `GroupBuilder.AddName` | bindings/utils.py:131-150 | appending to, or splitting, the innermost group in place does what the insertion on trees does |
| `GroupBuilder.FillPile` | bindings/utils.py:131-150 | the loop over the sorted names keeps the aliased pile the path of open groups of the insertions so far |
| `GroupBuilder.BuildGroups` | bindings/utils.py:131-150 | the nested lists built by aliasing updates represent the prefix tree of the list |
| `CamelCase.NextWords` | bindings/utils.py:43-63 | one more character starts a word, splits the last word before its last letter, or extends it |
| `CamelCase.AddChar` | bindings/utils.py:43-63 | the edits of the word list for one character, backtracking included, grow the words as specified |
| `CamelCase.WordsAreCut` | bindings/utils.py:43-63 | the specified words make up the identifier, start exactly at the lookahead boundaries, and none is empty |
| `CamelCase.CamelCaseToList` | bindings/utils.py:43-63 | the one-pass splitter returns the lower-cased words of the lookahead specification |
| `CamelCase.LoweredWordsConcatenate` | bindings/utils.py:43-63 | the returned words concatenate to the lower-cased identifier |
| `ClassOrder.OrderIsGood` | bindings/bindings.py:117-125 | where the loop ends, it has permuted the structs and put every parent before its children |
| `ClassOrder.OrderExactly` | bindings/bindings.py:117-125 | the loop ends if and only if some good order exists |
| `ClassOrder.NeverOrdered` | bindings/bindings.py:117-125 | a struct that is its own parent, or whose parent is missing, is never ordered |
| `ClassOrder.StuckPass` | bindings/bindings.py:117-125 | a pass without candidate, with all parents listed, yields an explicit cycle among the waiting structs |
| `ClassOrder.AcyclicIsOrdered` | bindings/bindings.py:117-125 | with every parent the root or listed and no cycle, the loop ends with a good order |
| `ClassOrder.AcyclicExactly` | bindings/bindings.py:117-125 | with distinct names that condition is also necessary |
| `ClassOrder.BindingData.Pass` | bindings/bindings.py:119-124 | one pass moves the first candidate, or changes nothing |
| `ClassOrder.BindingData.OrderClassHierarchy` | bindings/bindings.py:117-125 | the remove-while-scanning loop ends with a permutation in which every parent precedes its children |

## Left out

- SAML 2.0, ID-WSF, LECP and PAOS branches.
- XML parsing and serialisation, signatures, encryption, SHA-1 and random identifiers: their results are parameters, with fresh identifiers where the protocol needs them.
- Rewriting of subjects for providers before 1.2, encryption of name identifiers, and version fields of messages.
- `lasso_login_process_authn_request_msg`, its signature hints, and the building of messages other than the artifact query.
- Dumping and restoring of logins, logouts, identities and sessions, the dirty flags, and the thin-session flag.
- Status codes and name identifier formats are enumerated types with a catch-all; a name identifier without a format, which the code dereferences, is not modelled.
- The session and the identity that a profile holds are values of that profile; sharing one session object between two live profiles is not modelled.
- Reference counting, allocation failures and 32-bit limits of quarks, lengths and indices.
- EZT tokens start after the regular expressions and after whitespace compression, with the directive's word already recognised; `EztRender.LexItems` connects words and tokens.
- EZT included files: a text reader has none, so including a constant name fails while compiling and including a reference fails at run time.
- EZT streams, callbacks and attributes of strings are not modelled; printing a list or an object is an error; lower-casing is that of ASCII. An exception ends the run, so the table of loops is not observed after it.
- Base64 texts with line breaks or stray characters, which the decoder of the XML security library may accept, count as undecodable.
- Joining of the artifact query to the target URL, and the relay state of the form, which travels in its own field.
- `FederationProperties.RunKeeps`: assumes that neither side knows the other as a member of an affiliation, which holds of every ID-FF run, because an ID-FF server refuses to load affiliations (`lasso/id-ff/server.c:247-252`).
- `LoginProfile.LoginProfile.InitAuthn`: does not record the roles that the call writes into the server's own and the remote provider's entries, because no modelled login call reads them.
- `CamelCase.CamelCaseToList`: classifies letters as ASCII does, because the generators read C identifiers.
- `ClassOrder.BindingData.OrderClassHierarchy`: requires that a good order exists, because the loop does not end otherwise (`ClassOrder.OrderExactly`).
- The other generators (`bindings/lang.py` and the language back ends), logging, error tables, the example service provider and the website converter.
