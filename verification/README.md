# spade_bdi mediation layer, modelled in Dafny

This project models the core of `spade_bdi/bdi.py`: the layer between a SPADE
agent's XMPP messages and the python-agentspeak BDI reasoning engine. Five parts
are modelled:

- the text helpers that decode a message body into a literal (`parse_literal`
  and its inner `recursion`), strip the source annotation from a belief's text
  (`_remove_source`), and split a belief's arguments (`get_belief_value`);
- the belief facade over the intention buffer (`set_belief`, `remove_belief`,
  `get_belief`, `get_belief_value`, `get_beliefs`);
- the mediation tick (`BDIBehaviour.run`): routing by illocutionary force, the
  buffer drain over a snapshot, one `step`, and the `bdi_enabled` gate driven by
  `pause_bdi`, `resume_bdi`, `_load_asl` and `set_asl`;
- the `.send` action, which emits one message per receiver;
- the plan query responder `_ask_how`, which groups plans by (trigger, goal type,
  functor, arity).

Files:

- `wrappers.dfy` holds Option, Result and Outcome.
- `errors.dfy` lists the exceptions the layer raises or lets through.
- `text.dfy` models the Python string operations used: `split`, `in` and `replace`.
- `terms.dfy` defines terms, mental updates, belief groups and plans. It also has
  `Show`, which stands in for the engine's `str(term)`.
- `literals.dfy` models `parse_literal` and `recursion`.
- `beliefs.dfy` holds the pure side of the belief facade.
- `router.dfy` models the force table and payload construction of `run`.
- `plans.dfy` models `_ask_how`'s requester search and grouping.
- `outbound.dfy` models the `.send` fan-out and the tellHow messages.
- `agent.dfy` has the `BdiAgent` class. It holds the flag, the plan path, the
  intention buffer, the engine, the inbox and the outbox. Its methods change them
  in place.

The reasoning engine is foreign code. It appears as a value (`Agent.Engine`): its
belief groups and plans in iteration order, plus a record of every `call` it got
and a count of its `step`s. The engine's own inference is not modelled. Python's
`literal_eval` is a parameter: a partial parser from text to a term, `None` where
it raises.

Three facts about the code shape the model:

- The argument text of `parse_literal` is `split("(")[1].split(")")[0]`. So it
  ends at the second `(` as well as at the first `)`. For example, `f(g(1))`
  yields `g`.
- A message with force `askHow` gets a `plain_text` payload. The `elif
  ilf_type == "askHow"` branch (spade_bdi/bdi.py:214-230) comes after a test that
  already catches `askHow`. So the `_ask_how` override is never installed.
  `Router.Branch` shows that no force reaches the override branch. `_ask_how` is
  still modelled as written, as `Agent.BdiAgent.AskHow`.
- This file has no encoder. The nearest round trip is between `recursion` and
  its inverse on nested lists.

Two consequences of `_remove_source` (spade_bdi/bdi.py:141-145) follow from the
code and are stated as lemmas:

- A belief whose first argument is a list or a tuple is cut at that
  argument's own `[`. `pos([1,2])[source(percept)]` strips to `pos(`.
- An atom belief such as `x[source(percept)]` has no `)[source`, so it is
  returned unstripped. `get_belief_value` then reads `percept` as its value.

## Model

| member | source | states |
|---|---|---|
| `Literals.Recursion` | spade_bdi/bdi.py:273-276 | The result is never a list. A list becomes a tuple of the same length whose i-th item is the converted i-th item. Anything else is returned unchanged, including a tuple whose items are lists. |
| `Literals.RecursionRoundTrip` | spade_bdi/bdi.py:273-276 | On a value built from numbers, strings and nested lists, `recursion` yields a value of numbers, strings and tuples only. Turning tuples back into lists recovers the input, so no level or element is lost. |
| `Literals.ListifyRoundTrip` | spade_bdi/bdi.py:273-276 | The other direction: every tuples-only value is what `recursion` makes of its list form. So `recursion` is a bijection between list-nested and tuple-nested values. |
| `Literals.ParseLiteral` | spade_bdi/bdi.py:257-282 | The functor has no `(` and is a prefix of the body that stops at the first `(`. Without a `(` the body is the functor and there are no args. With a `(` there is exactly one arg, and it is never a list. An argument text starting with `_X` gives a variable. Otherwise the arg is the converted `literal_eval` result. The call fails exactly when `literal_eval` rejects the text. |
| `Literals.ParseLiteralKeepsValue` | spade_bdi/bdi.py:266-278 | When `literal_eval` reads nested lists, the decoded literal has one tuple-nested argument. The evaluated value can be recovered from it. |
| `Text.Inner` | spade_bdi/bdi.py:262-263 | `s.split("(")[1].split(")")[0]` is the text right after the first `(`. It contains no `(` and no `)`, and it ends at the end of the text or at the next `(` or `)`. |
| `Text.JoinSplit` | spade_bdi/bdi.py:152 | Joining the pieces of `s.split(c)` with `c` gives back `s`. |
| `Text.SplitJoin` | spade_bdi/bdi.py:152 | Splitting the join of pieces that contain no `c` gives back the pieces. |
| `Text.RemoveCharAppend` | spade_bdi/bdi.py:144 | `replace('"', '')` works piece by piece: removing from a concatenation is removing from each part. Together with `Text.RemoveCharSingle` (a quote is dropped, any other character is kept), this fixes the result as the input's non-quote characters in their order. |
| `Text.RemoveCharSingle` | spade_bdi/bdi.py:144 | A single character is dropped when it is the removed one and kept otherwise. |
| `Beliefs.RemoveSource` | spade_bdi/bdi.py:141-145 | With `source` set, or without `)[source` in the text, the text is returned unchanged. Otherwise the result is exactly the text before its first `[` with every `"` removed. So it has no `[` and no `"`, is no longer than the text, and uses only the text's characters. |
| `Beliefs.RemoveSourceIdempotent` | spade_bdi/bdi.py:141-145 | Stripping twice equals stripping once. |
| `Beliefs.RemoveSourceOfShown` | spade_bdi/bdi.py:135-136 | Take any belief with arguments whose first annotation is a source. Its shown text strips to its bare text (the text without annotations) cut at the first `[`, with quotes removed. When the bare text has no `[` and no `"`, that is exactly the bare text. |
| `Beliefs.ListArgumentCut` | spade_bdi/bdi.py:143-144 | A source-annotated belief whose first argument is a list or a tuple strips to just its functor and `(`, because that argument's `[` comes before the annotations' `[`. |
| `Beliefs.ListBeliefCut` | spade_bdi/bdi.py:143-144 | `pos([1,2])[source(percept)]` strips to `pos(`. |
| `Beliefs.AtomBeliefKept` | spade_bdi/bdi.py:141-154 | The atom belief `x` with source `percept` shows as `x[source(percept)]`. Stripping leaves it unchanged, because it holds no `)[source`. Its `get_belief_value` parse is `("percept",)`. |
| `Beliefs.BeliefValue` | spade_bdi/bdi.py:152 | A text without `(` raises `IndexError`. Otherwise there is at least one piece, no piece contains a comma, and the pieces join with commas to the text between the first `(` and the next `(` or `)`. |
| `Beliefs.PerceptTerm` | spade_bdi/bdi.py:97-103 | The term is a literal named `name`, with one argument per given argument and the annotation `source(percept)`. String arguments become atoms, and every other argument is kept as it is. |
| `Beliefs.SetBeliefRecords` | spade_bdi/bdi.py:104-113 | `set_belief` queues removals first, and only for stored facts that do not unify. Each non-unifying fact gets exactly as many removals as it has copies, and a unifying fact gets none. The records for earlier facts come before those for later ones. After the removals comes exactly one addition of the new term, placed last, if and only if no stored fact unifies. |
| `Beliefs.RemovalsCount` | spade_bdi/bdi.py:105-110 | The loop queues one removal per copy of each non-unifying fact, and none for a unifying one. |
| `Beliefs.RemovalsPrefix` | spade_bdi/bdi.py:105-110 | The removals for the first `k` facts are a prefix of all the removals, so records follow the facts' order. |
| `Beliefs.SetBeliefSingleValue` | spade_bdi/bdi.py:95-113 | Applying those records to the group literally leaves a non-empty group whose every fact unifies with the new term. When no fact unified before, the group is exactly the new term. This is the single-current-value rule, for records computed from the group as it stands when they are applied, i.e. per drain. |
| `Beliefs.StaleGroupKeepsBoth` | spade_bdi/bdi.py:95-113 | Two calls made before a drain both compute their records from the same group. Starting from an empty group, two distinct terms both end up in it. |
| `Beliefs.TwoCallsBeforeDrain` | spade_bdi/bdi.py:95-113 | `set_belief("k", 1)` then `set_belief("k", 2)` in one tick leave `k(1)` and `k(2)` in the group, and these do not unify. |
| `Beliefs.LookupExact` | spade_bdi/bdi.py:127-139 | When no group has functor `key`, the answer is `None`. Otherwise only the first such group decides, whatever later groups of other arities hold. An empty first group raises `BeliefNotInitiated`. A non-empty one gives the stripped text of its first fact. |
| `Beliefs.FirstFactsExact` | spade_bdi/bdi.py:156-166 | `get_beliefs` reports exactly one fact per non-empty group: the first fact of some non-empty group, and every such first fact. |
| `Router.Route` | spade_bdi/bdi.py:184-206 | The force table. Exactly the seven known forces route. Removal is chosen exactly for `untell`, `unachieve` and `untellHow`. `tell`/`untell` give belief, `achieve`/`unachieve` give achievement, `tellHow`/`untellHow` give tellHow, and `askHow` gives askHow. |
| `Router.Branch` | spade_bdi/bdi.py:212-236 | The payload is plain text exactly for `tellHow`, `askHow` and `untellHow`. The `askHow` override branch is never taken. |
| `Router.RouteMessage` | spade_bdi/bdi.py:181-243 | A missing `ilf_type` raises `KeyError`, and an unknown force raises. A routed update carries the table's trigger and goal type, and its term is annotated with exactly `source(sender)`. Plan forces wrap the body unchanged in `plain_text`. The other forces succeed exactly when decoding does, and carry the decoded functor and args. |
| `PlanQuery.FindSender` | spade_bdi/bdi.py:293-296 | The annotation loop leaves the argument of the last `source` annotation, or nothing. |
| `PlanQuery.LastSourceExact` | spade_bdi/bdi.py:293-299 | There is no requester exactly when no annotation is a source. Otherwise the requester is named by a source annotation after which no other source annotation follows. |
| `PlanQuery.GroupPlans` | spade_bdi/bdi.py:301-308 | The nested plan loop yields the distinct keys of the mentioned plans, in first-seen order. If there is at least one plan, a query without arguments or with a non-container first argument fails. |
| `PlanQuery.PlanKeysExact` | spade_bdi/bdi.py:301-311 | Each key is told once. A key is told exactly when some plan whose functor the query mentions has that (trigger, goal type, functor, arity). |
| `PlanQuery.DedupExact` | spade_bdi/bdi.py:308-311 | The keys of the insertion-ordered grouping dict are the grouped keys, each exactly once. |
| `Outbound.Fanout` | spade_bdi/bdi.py:79-93 | Ungrounded receivers or performative fail. A performative that is not an atom makes the action return before its `yield`, which fails the calling intention with nothing sent. Otherwise a lone string or literal gets one message, and a list or tuple gets one message per receiver in order. Every message is tagged with the performative's functor and carries the content term. |
| `Outbound.TellHows` | spade_bdi/bdi.py:311-315 | One tellHow message per key, addressed to the requester, with the key as body. |
| `Agent.BdiAgent.constructor` | spade_bdi/bdi.py:27-33 | A new agent keeps the plan path, is disabled, and has an empty buffer, no engine and no messages. |
| `Agent.BdiAgent.PauseBdi` | spade_bdi/bdi.py:50-51 | The agent is disabled afterwards. |
| `Agent.BdiAgent.ResumeBdi` | spade_bdi/bdi.py:53-54 | The agent is enabled afterwards. |
| `Agent.BdiAgent.LoadAsl` | spade_bdi/bdi.py:65-75 | Afterwards the agent is enabled exactly when the file exists and the engine was built, and the engine is then the built one, named after the agent. A missing file is swallowed and clears the path. No path, or a rejected file, raises. Any failure leaves the agent disabled with its old engine. |
| `Agent.BdiAgent.SetAsl` | spade_bdi/bdi.py:61-63 | The same outcome as loading the new path. |
| `Agent.BdiAgent.SetBelief` | spade_bdi/bdi.py:95-113 | With an engine, the buffer is the old buffer followed by the removal and addition records `set_belief` queues. Earlier entries and the engine's beliefs are untouched. Without an engine, it fails and the buffer is unchanged. |
| `Agent.BdiAgent.RemoveBelief` | spade_bdi/bdi.py:115-125 | Exactly one removal record of the percept term is appended, and nothing else changes. |
| `Agent.BdiAgent.GetBelief` | spade_bdi/bdi.py:127-139 | The loop returns the first-functor-match answer characterised by `Beliefs.LookupExact`. Without an engine it fails. |
| `Agent.BdiAgent.GetBeliefValue` | spade_bdi/bdi.py:147-154 | A lookup failure propagates. No belief, or an empty text, gives `None`. Otherwise the result is the comma pieces of the argument text, and a text without `(` raises `IndexError`. |
| `Agent.BdiAgent.GetBeliefs` | spade_bdi/bdi.py:156-166 | One stripped text per non-empty group, in group order, and nothing for empty groups. |
| `Agent.BdiAgent.Tick` | spade_bdi/bdi.py:175-254 | A disabled tick receives, queues, calls and steps nothing. An enabled tick takes at most one message. If routing fails, it raises with the buffer and engine unchanged. Otherwise every pending update, the routed one last, reaches `call` once in FIFO order, the buffer ends empty, and `step` runs exactly once. |
| `Agent.BdiAgent.DrainAndStep` | spade_bdi/bdi.py:245-251 | The snapshot's updates go to `call` in order and are popped from the front, leaving the buffer empty. Then `step` runs once. |
| `Agent.BdiAgent.Send` | spade_bdi/bdi.py:79-93 | The outbox grows by exactly the messages `Outbound.Fanout` describes, and the action succeeds. When `Fanout` fails, including for a non-atom performative, the action fails with the same error and the outbox is unchanged. |
| `Agent.BdiAgent.AskHow` | spade_bdi/bdi.py:285-315 | Without a source annotation it raises, and nothing is sent. Otherwise it sends one tellHow per distinct plan key to the last source's requester, or raises on a malformed query and sends nothing. |

## Left out

- XMPP transport and asyncio are left out: `receive(timeout=0)`, `send`, `agent.submit`, the idle `asyncio.sleep(0.1)` and the `while not self.loop` wait in `__init__`. Polling is taking the head of `inbox`. Sending is appending to `outbox`. `Agent.BdiAgent.Deliver` stands for the transport handing over a message.
- python-agentspeak internals (`build_agent`, `call`, `step`, `freeze`, `grounded`, `asl_str`) are foreign code. Building is an input: a map from existing paths to the engine each builds. `call` and `step` are only recorded. `freeze` is the identity. Grounding is assumed done, and a remaining variable means an ungrounded argument. `asl_str` bodies stay symbolic (`Outbound.Body`).
- `str(term)` is modelled by `Terms.Show`, an approximation of the engine's text form: `f(a,b)[source(x)]`, with list brackets for lists and tuples and double quotes for strings. Exact spacing and escaping are the engine's.
- `unifies` is approximated by `Terms.Unifies`: same functor and arity, with each argument equal or a variable on either side. Annotations are ignored, and repeated variables are not tracked.
- `literal_eval` is a parameter: a partial parser into `Terms.Term`. Python's literal grammar is not modelled.
- The engine's belief map may be a `defaultdict`, in which case `set_belief`'s lookup inserts an empty group for a new signature. This insertion is not modelled: the model reads an absent group as empty and changes no belief.
- `__init__`'s final `_load_asl` call is not modelled. The constructor cannot return the exception it may raise, so a caller runs `LoadAsl` after construction.
- Agent.BdiAgent.Tick: appends to the buffer from other threads during a drain are not modelled. The constructor waits until the agent's event loop exists (spade_bdi/bdi.py:35-36), so that loop runs on its own thread. A belief call from another thread, such as the main thread, can then append between `call` and `popleft` (spade_bdi/bdi.py:248-249). The code pops only the snapshot's entries and keeps such late ones for the next tick. The model treats the snapshot as the whole buffer and ends with an empty buffer.
- Agent.BdiAgent.DrainAndStep: the same interleaving is not modelled, for the same reason.
- Agent.BdiAgent.DrainAndStep: `call` and `step` never raise in the model. In the code, a `call` that raises (spade_bdi/bdi.py:248) happens before its `popleft` (spade_bdi/bdi.py:249). That entry and all later ones then stay queued, and `step` (spade_bdi/bdi.py:251) does not run in that tick.
- Terms.Term: a literal's annotations are a `frozenset`. The model holds them in a `seq` that stands for that set's iteration order. So `PlanQuery.LastSource` picks the last `source` annotation in that order, as the loop at spade_bdi/bdi.py:294-296 does. The order itself is the engine's and is not modelled.
- Agent.BdiAgent.AskHow: `tagged_message` (spade_bdi/bdi.py:313) and the plan lists collected per key are computed but never used, so they are not modelled. The body sent is the group key.
- The runtime patching of `asp_runtime.Agent` (spade_bdi/bdi.py:215-230) is not modelled. It is unreachable, and `Router.Branch` shows this.
- `print_beliefs`, `logger` calls, `add_custom_actions` (an empty hook) and `add_behaviour` (framework wiring) are output or plumbing only.
- The `Intention` objects queued with each update carry no state that this layer reads, so `Update` has no field for them.
- setup.py, bdi-ejemplos/master.py and examples/receiver.py are packaging and interactive demos, not part of this model.
