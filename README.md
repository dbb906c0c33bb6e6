# Video game news observers

A model of a small Ruby demonstration of the Observer pattern. A
`VideoGameSubject` holds the importance of the latest leaked news about a
video game (`state`, unset until the first leak) and an ordered list of
attached observers. When news leaks, the subject draws a new state from
0..10 and notifies every attached observer, in attachment order. A
`ProGamer` reacts to every notification. A `CasualGamer` reacts only when the
state is below 3.

Modules:

- `Wrappers` (wrappers.dfy): `Option`, for Ruby's `nil`.
- `Gamers` (gamers.dfy): the two observer classes. Each has a pure `Update`
  decision over the subject's state. The `Observer` datatype stands for an
  attached observer reference. It wraps the object, so two observers are
  equal exactly when they are the same object, as with Ruby's default `==`.
- `VideoGame` (subject.dfy): the `VideoGameSubject` class. It has fields
  `observers: seq<Observer>` and `state: Option<int>`, and its methods
  update them in place. `RemoveAll` gives the semantics of `Array#delete`.
  `Broadcast` specifies what `notify` does. `Reactions` is an independent
  reference definition of the reaction trace. `Replay` gives the observer
  list after a history of attach and detach calls.
- `Driver` (driver.dfy): the `main` script, with its three random draws
  passed in as parameters.

Each observer's printed reaction becomes an abstract `Reaction` value. A
notification returns a `Run`, which records three things: the `update`
calls made, in order, each with the state that observer read; the
reactions shown, in order; and the error that stopped the notification,
if there was one.

The state before the first leak is modelled as well. Ruby evaluates
`nil < 3` in `CasualGamer#update` and raises `NoMethodError`, while a
`ProGamer` still reacts. The subject does not catch the error, so the
notification stops at the first casual gamer.

`Array#delete` returns the last element it removed. Equality is by
identity, so that element is the argument itself, and `Detach` returns the
argument when it was attached.

Two points of the design are settled by the code, and the model follows
the code:

- `detach` removes every occurrence of an observer attached more than
  once, not only the first, because `Array#delete` does.
- Notifying before the first leak is not undefined: `CasualGamer#update`
  raises on the unset state, and so does the model.

## Model

| member | source | states |
|---|---|---|
| `Gamers.ProGamer.Update` | Main.rb:109-111 | a pro gamer reacts with the professional reaction whatever the state is, even an unset one |
| `Gamers.CasualGamer.Update` | Main.rb:99-101 | a casual gamer reacts iff the state is set and below 3, stays silent iff it is 3 or more, and raises iff the state was never set |
| `Gamers.Observer.Update` | Main.rb:96-111 | dispatch on the observer's class: raises only for a casual gamer on an unset state; reacts iff it is a pro gamer or the state is below 3; a reaction is always the one of the observer's own kind |
| `VideoGame.RemoveAll` | Main.rb:59-62 | `Array#delete`: the result holds no occurrence of the removed observer; every other entry survives, and nothing else appears |
| `VideoGame.RemoveAllCounts` | Main.rb:59-62 | removing an observer zeroes its count and leaves every other observer's count unchanged, so the length drops by the number of occurrences removed |
| `VideoGame.RemoveAllAppend` | Main.rb:59-62 | removal distributes over concatenation, so the surviving observers keep their relative order |
| `VideoGame.RemoveAllAbsent` | Main.rb:59-62 | detaching an observer that is not attached leaves the list unchanged |
| `VideoGame.RemoveAllIdempotent` | Main.rb:59-62 | a second detach of the same observer right after the first changes nothing |
| `VideoGame.AttachThenDetach` | Main.rb:53-62 | detaching an observer right after its only attach restores the previous list |
| `VideoGame.Broadcast` | Main.rb:64-69 | notify calls `update` at most once per entry, in list order, each with the same state; once the state is set nothing raises and every entry is called exactly once; there is at most one reaction per call |
| `VideoGame.BroadcastAppend` | Main.rb:66-69 | notifying the list `a + b` notifies `a`; then, unless an observer raised, it notifies `b`, and the calls and reactions concatenate |
| `VideoGame.BroadcastTrace` | Main.rb:66-69 | once the state is set, the reaction trace is the in-order concatenation of each observer's own reaction |
| `VideoGame.UrgentNewsReachesEveryone` | Main.rb:99-111 | for a state below 3 every attached observer reacts, in list order, each with its own kind's reaction |
| `VideoGame.MinorNewsReachesOnlyPros` | Main.rb:99-111 | for a state of 3 or more only professional reactions appear, exactly one per attached pro gamer |
| `VideoGame.UnsetStateFailsAtFirstCasual` | Main.rb:99-101 | notifying before the first leak raises iff a casual gamer is attached; it stops at the first casual gamer; every pro gamer called before it reacts with the professional reaction, one reaction per pro gamer called, and nothing else appears in the trace |
| `VideoGame.VideoGameSubject.constructor` | Main.rb:48-51 | a new subject has no observers and no state |
| `VideoGame.VideoGameSubject.Attach` | Main.rb:53-57 | appends the observer at the end, leaves earlier entries and the state alone, and returns the updated list |
| `VideoGame.VideoGameSubject.Detach` | Main.rb:59-62 | removes every occurrence of the observer and leaves the state alone; returns the observer if it was attached and nothing otherwise |
| `VideoGame.VideoGameSubject.Notify` | Main.rb:64-69 | the loop over the observers does exactly what `Broadcast` specifies, and it changes neither the list nor the state |
| `VideoGame.VideoGameSubject.NewsLeakedWithDraw` | Main.rb:71-79 | with the draw given: the state becomes the draw; the list is unchanged; every attached observer is called exactly once with that value, in order; nothing raises; the trace is `Reactions` of the list |
| `VideoGame.VideoGameSubject.VideoGameContentNewsLeaked` | Main.rb:74-79 | the new state lies in [0, 10]; the list is unchanged; every observer attached at call time is called exactly once with that same state |
| `VideoGame.ReplayMembership` | Main.rb:53-62 | after any history of attach and detach calls, an observer is in the list iff some attach of it is not followed by a detach of it |
| `Driver.RunDemo` | Main.rb:116-131 | the script's three leaks: both gamers react to the first two leaks (the pro gamer first) when the draw is below 3, and only the pro gamer otherwise; after the pro gamer is detached, the casual gamer reacts to the third leak iff its draw is below 3 |
| `Driver.ExampleRun` | Main.rb:135-156 | the draws 1, 8 and 5 give the recorded output: both gamers react, then only the pro gamer, then nobody |

## Left out

- Console output. Each `puts` line becomes a `Reaction` value in the trace
  or is dropped. This covers the announcements of attach, leak, new state and
  notify.
- The random draw `rand(0..10)`. `VideoGameContentNewsLeaked` picks an
  arbitrary value in [0, 10]. The model says nothing about the distribution.
- The abstract `Subject` and `Observer` base classes. They only raise
  `NotImplementedError`. With no traits, the observer capability is the
  `Observer` datatype over the two concrete classes, and the subject
  capability is the class's own methods.
- The public setters `state=` and `observers=` that `attr_accessor`
  creates. The script never calls them.
- Aliasing of the observer array. The array that `attach` returns, and
  the one the `observers` reader hands out, is the subject's own array.
  The model returns a copy of the list, so it does not capture changes a
  caller makes to the subject's list through that array.
- `update` receives the subject itself. The model passes the only thing
  both observers read from it, its `state`.
- The return values of `notify` and `video_game_content_news_leaked`. In
  Ruby, `each` returns the observer array. The model returns the `Run` of
  the notification instead.
