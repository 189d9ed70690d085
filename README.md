# Counter-aware Glushkov automata, modelled in Dafny

This project models the core of *regexps-with-counters*. The program turns a regular expression with
counters (`a{2,5}`) into a nondeterministic counter automaton (NCA) by Glushkov's construction. It then
unfolds the NCA into an ordinary NFA, matches strings against that NFA, and decides whether the
expression is ambiguous by searching the self-product of the NFA. The model covers each stage:

- **Scanner** (`scanner.dfy`). A class with the scanner's fields: input, read position, and the position
  and counter id sequences. It cuts the expression into tokens: characters, classes `[...]`, escapes,
  `*`, `+`, `{m}`, `{m,n}`, `{m,}`, parentheses and alternation. It numbers positions 1, 2, … and
  counters 1, 2, … as it goes.
- **Tokens, counter ranges, token strings, Glushkov sets** (`tokens.dfy`, `counters.dfy`,
  `token_strings.dfy`, `sets.dfy`). These are values. The annotation lists a token collects during set
  building are kept in a table keyed by the token.
- **Set builder** (`set_builder.dfy` as the pure step functions, `app.dfy` as the imperative builder).
  It makes one pass over the token stream with an operator stack and an operand stack. The model proves
  that every operand keeps the Glushkov shape, and that concatenation, alternation, star and counting
  follow Glushkov's equations. Both generations (`nca/` and `automata/`) are covered; they differ only
  where the model says so.
- **NCA states and transitions** (`nca_state.dfy`, `nca_transition.dfy`, `configuration.dfy`). The
  guard of a transition (`isAllowed`) and its counter update (`getUpdatedCounterValues`) for the four
  transition kinds.
- **NCA** (`nca.dfy`). The constructor fills the state table and the transition table from the sets.
  The model also covers the transition and finalization functions and the root configuration.
- **NFA unfolding and matching** (`nfa_search.dfy`, `nfa.dfy`, `matching.dfy`). The breadth-first
  exploration of NCA configurations becomes NFA states. `tryMatch` steps the set of active states one
  character at a time. The model proves that the unfolded NFA accepts exactly what the NCA's
  configuration semantics accepts, and that both generations agree.
- **Ambiguity analysis** (`product.dfy`, `product_nfa.dfy`, `approximate.dfy`). The self-product of
  the NFA is built breadth-first; `findAmbiguities` and `isAmbiguous` search it for a reachable pair of
  NFA states that are on the same NCA state with different counter values. `mightBeAmbiguous` is the approximate analysis. It checks one approximate regex per
  counter occurrence, with every other counter replaced by `*`. The model proves that a regex the exact
  analysis finds ambiguous is never judged definitely unambiguous by the approximation.

Java `assert` statements are treated as enabled. In the pure specification each one becomes an
`AssertionFailed` error result, and so does each one inside a method, with three exceptions. The
asserts of the NCA constructor and the one at the start of `mightBeAmbiguous` are preconditions that
the model leaves to the caller (see "## Left out"). The assert inside the backward-counter loop of
`getUpdatedCounterValues` can fail on a reachable configuration. It is recorded under "## Findings",
and the NCA, the NFA unfolding and matching use the corrected update, which omits it.
Hash-set iteration order is unspecified in Java, and it is left open in the
model: loops take elements in any order, and their contracts hold for every order.

## Model

| member | source | states |
|---|---|---|
| Util.Wrap32 | src/main/java/nca/NcaTransition.java:144 | the result lies in the 32-bit range and equals its argument when that is already in range |
| Util.NatToString | src/main/java/nca/CounterRange.java:29-33 | decimal rendering: at least one character, all digits, no leading zero |
| Util.IntToStringChars | src/main/java/nca/CounterRange.java:30-32 | Integer.toString yields one or more digits, with at most a leading minus sign |
| Util.ParseInt | src/main/java/nca/MyScanner.java:71-81 | Integer.parseInt: a successful parse is a 32-bit value of an optionally signed run of digits |
| Util.DigitsOnlyMeaning | src/main/java/nca/MyScanner.java:81 | the character-by-character digit test agrees with every character being a digit |
| Util.DigitsValueOfNatToString | src/main/java/nca/MyScanner.java:81 | the digits of a natural number parse back to that number |
| Util.ParseIntOfIntToString | src/main/java/nca/MyScanner.java:81 | every 32-bit integer, rendered and parsed again, comes back unchanged |
| Counters.RangeText | src/main/java/nca/CounterRange.java:26-35 | the range text is braced, and holds a comma exactly when the bounds differ (`{l}` against `{l, u}`) |
| Tokens.RangeToken | src/main/java/nca/Token.java:51-56 | a counter token keeps its symbol, kind and range and gets id -1 |
| Tokens.OperatorToken | src/main/java/nca/Token.java:58-62 | an operator token gets id -1 and no range |
| Tokens.NumberedToken | src/main/java/nca/Token.java:64-68 | a numbered token keeps the given id and has no range |
| Tokens.NotesGrowTransitive | src/main/java/nca/Token.java:16-19 | the annotation lists only grow: growth composes |
| Tokens.LastQuantifierExclusive | src/main/java/nca/Token.java:29-49 | lastQuantifierIsCounter and lastQuantifierIsStar never both hold; exactly when neither holds |
| Tokens.TokenEqualsSymmetric | src/main/java/nca/Token.java:85-95 | Token.equals, where defined, is symmetric, holds of equal tokens, and implies equality once ranges agree |
| Tokens.TokenToString | src/main/java/nca/Token.java:70-73 | the rendering is `(symbol, id)`: its length, parentheses and comma position |
| Configurations.MakeShim | src/main/java/automata/NfaStateShim.java:14-18 | every shim carries id -1 and the given NCA state and counter map |
| Configurations.CounterValuesTextMeaning | src/main/java/nca/Configuration.java:15-25 | trimming the last separator yields the entries joined by `, ` in brackets; an empty map renders `[]` |
| Configurations.EntriesTrim | src/main/java/nca/Configuration.java:17-24 | the appended entries, less their last two characters, are the joined entries |
| Configurations.RenderingsAgree | src/main/java/automata/NfaStateShim.java:20-33 | shimString and Configuration.toString give the same `{s_id=…, s_sym=…, c_vals=[…]}` text |
| Scanner.Advance | src/main/java/nca/MyScanner.java:20-26 | nextChar moves one position forward, and stays put only at the end: the position never passes the end of the input |
| Scanner.FirstFrom | src/main/java/nca/MyScanner.java:41-44 | the index the read-until loop stops after: the first occurrence at or after the start, or none |
| Scanner.IndexOf | src/main/java/nca/MyScanner.java:71-73 | String.indexOf of a character that occurs: its first occurrence |
| Scanner.ParseCounter | src/main/java/nca/MyScanner.java:68-84 | the bounds of `{...}` are 32-bit values (the upper one may be the -1 sentinel) and are equal when there is no comma |
| Scanner.ScanToken | src/main/java/nca/MyScanner.java:92-124 | getToken ends (null) exactly at the sentinel, without touching the ids; any token moves the read position forward and draws its ids as its kind says |
| Scanner.ScanClassAt | src/main/java/nca/MyScanner.java:38-46 | a class token has the next position id and consumes exactly that id, or the loop never returns normally |
| Scanner.ScanCounterAt | src/main/java/nca/MyScanner.java:61-86 | a counter token has id -1 and a range carrying the next counter id, and consumes exactly that id |
| Scanner.CounterText | src/main/java/nca/MyScanner.java:68-85 | a complete `{...}` text becomes a counter token with that text as symbol, or an Integer.parseInt error |
| Scanner.CounterTextAt | src/main/java/nca/MyScanner.java:61-67 | once a `}` follows, scanCounter is decided by the text through the first `}` |
| Scanner.ScanEscapeAt | src/main/java/nca/MyScanner.java:114-120 | a backslash gives a class token exactly when the escaped letter is one of dDsSvVwW, otherwise a char token; both take the next position id |
| Scanner.ScanClassVerbatim | src/main/java/nca/MyScanner.java:38-46 | a class token is the text from `[` through the first `]`; the scan never returns normally exactly when no `]` follows |
| Scanner.ScanCounterVerbatim | src/main/java/nca/MyScanner.java:61-67 | a counter token's text runs from `{` through the first `}`; the scan never returns normally exactly when no `}` follows |
| Scanner.CounterUnclosed | src/main/java/nca/MyScanner.java:64-67 | with no `}` after the `{`, the loop never returns normally |
| Scanner.CounterClosed | src/main/java/nca/MyScanner.java:64-67 | with a `}` after the `{`, the loop ends |
| Scanner.CounterVerbatim | src/main/java/nca/MyScanner.java:61-67 | the counter text read ends at the first `}` |
| Scanner.LexFromNumbering | src/main/java/nca/MyScanner.java:45-59 | from ids (i, c), positions are numbered i, i+1, … and quantifiers c, c+1, … in scan order; operators, counters and brackets have id -1 |
| Scanner.LexNumbering | src/main/java/nca/MyScanner.java:13-18 | after initScanner, positions are numbered 1, 2, 3, … and `*`, `+`, `{…}` draw 1, 2, 3, … from the one counter sequence |
| Scanner.ParseExactCounter | src/main/java/nca/MyScanner.java:80-83 | `{m}` reads back as the range [m, m] |
| Scanner.ParseBoundedCounter | src/main/java/nca/MyScanner.java:70-79 | `{m,n}` reads back as the range [m, n] |
| Scanner.ParseUnboundedCounter | src/main/java/nca/MyScanner.java:72-76 | `{m,}` reads back as [m, -1], -1 marking the missing upper bound |
| Scanner.MyScanner.InitScanner | src/main/java/nca/MyScanner.java:13-18 | initScanner: the new input, read position 0, both id sequences back at 1 |
| Scanner.MyScanner.NextChar | src/main/java/nca/MyScanner.java:20-26 | the character at the read position or the sentinel past the end; the position moves as Advance says |
| Scanner.MyScanner.IsPredefinedCharacterClass | src/main/java/nca/MyScanner.java:28-36 | true exactly for the eight class letters |
| Scanner.MyScanner.ReadThrough | src/main/java/nca/MyScanner.java:41-44 | the loop appends the input up to and including the first closing character, and stops just after it |
| Scanner.MyScanner.ScanCharClass | src/main/java/nca/MyScanner.java:38-46 | scanCharClass returns the token and new state ScanClassAt specifies |
| Scanner.MyScanner.ScanCounter | src/main/java/nca/MyScanner.java:61-86 | scanCounter returns the token and new state ScanCounterAt specifies, or its parse error |
| Scanner.MyScanner.GetToken | src/main/java/nca/MyScanner.java:92-124 | getToken returns null, a token, or an error, with the new state, exactly as ScanToken specifies |
| TokenStrings.Concatenate | src/main/java/automata/TokenString.java:43-48 | concatenate(suffix): this string's tokens followed by the suffix's, lengths adding, with no tag |
| TokenStrings.ConcatenateTagged | src/main/java/automata/TokenString.java:50-55 | concatenate(suffix, t): the same tokens, tagged with t |
| TokenStrings.ConcatenateLaws | src/main/java/automata/TokenString.java:38-55 | the empty string is neutral on both sides and concatenation is associative |
| TokenStrings.CompareTokenStrings | src/main/java/automata/TokenString.java:86-106 | the compareTo loop computes the lexicographic comparison Compare |
| TokenStrings.StringCompareLaws | src/main/java/automata/TokenString.java:92 | String.compareTo is antisymmetric and zero exactly on equal strings |
| TokenStrings.StringCompareTransitive | src/main/java/automata/TokenString.java:92 | String.compareTo is transitive, strictly when one step is strict |
| TokenStrings.TokenCompareLaws | src/main/java/automata/TokenString.java:92-95 | the per-token step is antisymmetric and zero exactly on equal (symbol, id) |
| TokenStrings.TokenCompareTransitive | src/main/java/automata/TokenString.java:92-95 | the per-token step is transitive |
| TokenStrings.CompareAntisymmetric | src/main/java/automata/TokenString.java:86-106 | compareTo is antisymmetric and zero exactly when both strings have the same (symbol, id) pairs |
| TokenStrings.CompareTransitive | src/main/java/automata/TokenString.java:86-106 | compareTo is transitive: a total preorder |
| TokenStrings.ComparePrefix | src/main/java/automata/TokenString.java:101-105 | a proper prefix sorts first; a string compares 0 with itself |
| GlushkovSets.ToArray | src/main/java/automata/Sets.java:21-22 | toArray: a fresh array holding each element of the set exactly once |
| GlushkovSets.MinIndex | src/main/java/automata/Sets.java:23 | the index of an element of the suffix that compares at most 0 with every other one |
| GlushkovSets.SelectionStep | src/main/java/automata/Sets.java:23 | swapping a least element into place extends the sorted prefix and permutes the elements |
| GlushkovSets.SortInPlace | src/main/java/automata/Sets.java:23 | Arrays.sort leaves the copy sorted by compareTo and a permutation of what it held |
| GlushkovSets.SortedRendering | src/main/java/automata/Sets.java:21-24 | one set's rendering is Arrays.toString of a sorted listing of exactly that set |
| GlushkovSets.SetsToString | src/main/java/automata/Sets.java:19-42 | toString renders P, L, D and F in that order on separate lines, each a sorted listing of its set |
| GlushkovSets.ListingTail | src/main/java/automata/Sets.java:23 | the tail of a sorted listing lists the rest of the set |
| GlushkovSets.ListingHeadFirst | src/main/java/automata/Sets.java:23 | the head of a sorted listing compares at most 0 with every element |
| GlushkovSets.SortedListingUnique | src/main/java/automata/Sets.java:19-42 | when compareTo separates the elements, the rendering depends on the set alone, not on the hash iteration order |
| NcaStates.WithTransitionLaws | src/main/java/automata/NcaState.java:56-65 | addTransition touches only its symbol, whose set becomes the old one plus the transition (a singleton for a new symbol); adding again changes nothing; additions commute |
| NcaStates.NcaState.constructor | src/main/java/automata/NcaState.java:19-35 | isStart holds exactly for the start token, which has id 0; the state id is the token's id; only positions and the start token become states; no transitions yet |
| NcaStates.NcaState.AddTransition | src/main/java/automata/NcaState.java:56-65 | the transition table afterwards is WithTransition of the old one |
| NcaTransitions.Get | src/main/java/nca/NcaTransition.java:68 | unboxing `counterValues.get(id)` succeeds exactly when the id has a value, and throws otherwise |
| NcaTransitions.AllInRangeMeaning | src/main/java/nca/NcaTransition.java:67-71 | the range loop succeeds exactly when every dependency has an in-range value, and throws exactly when the first dependency it cannot pass has no value |
| NcaTransitions.PassesShiftAt | src/main/java/nca/NcaTransition.java:67-71 | passing k + 1 dependencies is passing the first, then k of the rest |
| NcaTransitions.ForwardGuard | src/main/java/nca/NcaTransition.java:66-78 | a forward edge fires exactly when every dependency is in range and the last is strictly below its upper bound (always with no dependencies) |
| NcaTransitions.BackwardCounterGuard | src/main/java/nca/NcaTransition.java:80-93 | a backward counter edge fires exactly when the first n - 1 dependencies are in range and the last is strictly below its upper bound |
| NcaTransitions.BackwardStarGuard | src/main/java/nca/NcaTransition.java:95-102 | a backward star edge fires exactly when every dependency is in range |
| NcaTransitions.CheckInRange | src/main/java/nca/NcaTransition.java:81-86 | the loop over the first n dependencies computes AllInRange of that prefix |
| NcaTransitions.CheckForwardCondition | src/main/java/nca/NcaTransition.java:66-78 | checkForwardCondition computes ForwardCondition |
| NcaTransitions.CheckBackwardCounterCondition | src/main/java/nca/NcaTransition.java:80-93 | checkBackwardCounterCondition computes BackwardCounterCondition |
| NcaTransitions.CheckBackwardStarCondition | src/main/java/nca/NcaTransition.java:95-102 | checkBackwardStarCondition computes BackwardStarCondition |
| NcaTransitions.IsAllowed | src/main/java/nca/NcaTransition.java:109-123 | isAllowed computes Allowed: unconditional edges always fire, each conditional kind by its own check |
| NcaTransitions.LeadingBelow | src/main/java/nca/NcaTransition.java:136-143 | where the reset loop breaks: every earlier initialised counter has an id below the bound, and the one it stops at does not |
| NcaTransitions.OverrideStep | src/main/java/nca/NcaTransition.java:136-143 | setting the first counter to 1 and then the rest is setting them all |
| NcaTransitions.ResetBelowMeaning | src/main/java/nca/NcaTransition.java:136-143 | the reset-while-below loop sets exactly the leading counters below the bound to 1 and keeps every other entry |
| NcaTransitions.ResetAllMeaning | src/main/java/nca/NcaTransition.java:159-161 | the forward loop sets every initialised counter to 1 |
| NcaTransitions.CheckedAgrees | src/main/java/nca/NcaTransition.java:136-143 | the loop as written and the corrected loop agree whenever the visited initialised counters all have values |
| NcaTransitions.CheckedFails | src/main/java/nca/NcaTransition.java:136-137 | a visited initialised counter with no value makes the loop throw AssertionError |
| NcaTransitions.AsWrittenExactly | src/main/java/nca/NcaTransition.java:128-146 | the method as written throws AssertionError where the corrected update succeeds exactly on a backward counter edge with a visited initialised counter that has no value, and agrees with it everywhere else |
| NcaTransitions.BackwardCounterUpdate | src/main/java/nca/NcaTransition.java:133-145 | the backward counter update succeeds exactly when the last dependency has a value; that counter goes up by exactly one, the leading initialised counters with smaller ids restart at 1, every other entry is kept |
| NcaTransitions.BackwardStarUpdate | src/main/java/nca/NcaTransition.java:146-156 | the backward star update restarts the leading initialised counters below the star's id and increments nothing |
| NcaTransitions.ForwardUpdate | src/main/java/nca/NcaTransition.java:157-162 | forward and unconditional updates restart every initialised counter |
| NcaTransitions.GetUpdatedCounterValues | src/main/java/nca/NcaTransition.java:128-168 | the method computes Updated, on a copy: the argument map is a value and is never changed |
| NcaTransitions.ResetWhileBelow | src/main/java/nca/NcaTransition.java:136-143 | the loop that breaks at the first id not below the bound computes ResetBelow |
| NcaTransitions.UpdateKeepsShape | src/main/java/nca/NcaTransition.java:128-168 | an update gives values only to counters that had one and to the destination's initialised counters; values stay Java ints |
| NcaTransitions.UpdateStaysBounded | src/main/java/nca/NcaTransition.java:87-89 | along an allowed edge every counter stays between 1 and max(1, upper bound) |
| NcaTransitions.AssertRejectsCounterLoop | src/main/java/nca/NcaTransition.java:137 | on a backward counter edge written out by hand in the shape of the loop of counter 2 in the regex that repeats `x` or `p{2}` three times, from the values {2: 1} the guard allows the edge, the update as written fails its assert, and the corrected update restarts counter 1 and increments counter 2 |
| Ncas.SlotOf | src/main/java/automata/NCA.java:74 | a position token is stored at the array slot equal to its id, which lies between 1 and the number of positions |
| Ncas.BuildMeetsNcaInput | src/main/java/automata/NCA.java:61-94 | what a successful build returns meets the constructor's asserts on the sizes of the P, D and F strings and indexes the state array only within range |
| Ncas.SlotFinalMeaning | src/main/java/automata/NCA.java:70-83 | slot k is made final exactly when k is the id of a last position: the D loop fills the very slot the stateTokens loop then skips |
| Ncas.IndexOfId | src/main/java/automata/NCA.java:134 | List.indexOf by counter id: the first index holding that id |
| Ncas.FirstAbove | src/main/java/automata/NCA.java:144-150 | the star loop stops at the first counter whose id exceeds the star's, or at the end of the list |
| Ncas.TableAdd | src/main/java/automata/NCA.java:125 | adding an edge changes only the table of its source state |
| Ncas.TableEdge | src/main/java/automata/NCA.java:85-109 | every transition in a state's table comes from an edge of P or F |
| Ncas.SpecView | src/main/java/automata/NCA.java:61-110 | the NCA has one state per position plus the start state |
| Ncas.Moves | src/main/java/automata/NCA.java:182-192 | every configuration a transition leads to is at a state of the automaton |
| Ncas.MakeStates | src/main/java/automata/NCA.java:63-84 | the first half of the constructor fills every slot with the state made for it, each with no transitions |
| Ncas.AddFinalStates | src/main/java/automata/NCA.java:69-75 | the D loop fills exactly the slots of last positions, each with a final state for that token |
| Ncas.AddOtherStates | src/main/java/automata/NCA.java:76-84 | the stateTokens loop fills every still-empty slot with a non-final state and keeps the final ones |
| Ncas.Nca.View | src/main/java/automata/NCA.java:10-12 | the automaton as a sequence of state views, one per slot, every transition leading to a state |
| Ncas.Nca.constructor | src/main/java/automata/NCA.java:61-110 | the states and transition tables built are exactly those SpecView gives for the edges of P and F |
| Ncas.Nca.AddStartTransitions | src/main/java/automata/NCA.java:85-90 | after the P loop the tables hold exactly one unconditional edge from the start state into each first position |
| Ncas.Nca.AddStartTransition | src/main/java/automata/NCA.java:86-90 | one pass of the P loop adds exactly that element's edge |
| Ncas.Nca.AddFollowTransitions | src/main/java/automata/NCA.java:91-109 | after the F loop the tables hold exactly the P edges and the edges of the F pairs |
| Ncas.Nca.AddFollowTransition | src/main/java/automata/NCA.java:92-108 | one pass of the F loop adds exactly the edge the pair's tag selects |
| Ncas.Nca.AddTransition | src/main/java/automata/NCA.java:176-180 | an unconditional edge from the start state, filed under the destination's symbol |
| Ncas.Nca.AddForwardTransition | src/main/java/automata/NCA.java:112-126 | adds exactly the edge ForwardTransition describes, to the source state only |
| Ncas.Nca.AddBackwardTransition | src/main/java/automata/NCA.java:128-161 | adds exactly the edge BackwardTransition describes, or nothing for a tag with neither counter nor star |
| Ncas.Nca.EvaluateFinalizationFunction | src/main/java/automata/NCA.java:163-174 | a final state accepts exactly when all its incremented counters are in range; a missing value throws |
| Ncas.Nca.EvaluateTransitionFunction | src/main/java/automata/NCA.java:182-192 | an unknown symbol throws; otherwise the list holds one configuration per allowed transition and fails exactly when a guard or update throws |
| Ncas.Nca.Collect | src/main/java/automata/NCA.java:185-190 | the loop over a symbol's transitions collects the configuration of every allowed one, and throws exactly when some guard or update throws |
| Ncas.Nca.GetRootConfig | src/main/java/nca/NCA.java:198-203 | the start state with no counter values |
| Ncas.CollectStep | src/main/java/automata/NCA.java:186-189 | an allowed transition adds its configuration to the list |
| Ncas.CollectSkip | src/main/java/automata/NCA.java:186 | a transition whose guard is false adds nothing |
| Ncas.EdgesInRange | src/main/java/automata/NCA.java:85-109 | every edge connects states of the automaton and is filed under its destination's symbol |
| App.ConcatSets | src/main/java/nca/App.java:128-136 | concat's nested loops produce exactly the concatenation of every prefix with every suffix |
| App.ConcatOne | src/main/java/nca/App.java:131-133 | the inner loop adds the concatenation of one prefix with every suffix and keeps what was there |
| App.ConcatAndSaveTransitionToken | src/main/java/nca/App.java:237-246 | the nested loops produce exactly every prefix-suffix pair, tagged with the transition token |
| App.TagOne | src/main/java/nca/App.java:241-243 | the inner loop adds one prefix's tagged pairs and keeps what was there |
| App.ExtremesOneMore | src/main/java/nca/App.java:149-152 | the running minimum and maximum stay the least and largest ids seen, or their initial values when none was |
| App.SpanTest | src/main/java/nca/App.java:189 | `minID <= t.id && t.id <= maxID` holds exactly when the id lies between some first position's id and some last position's id |
| App.VisitOneMore | src/main/java/nca/App.java:142-148 | each element of D or P is a distinct single position, so each visit annotates a token not annotated before |
| App.AnnotateOneMore | src/main/java/nca/App.java:148 | annotating one more token is one more update of that token's lists |
| App.AnnotateSpanOneMore | src/main/java/nca/App.java:188-192 | the span loop annotates one state token at a time, exactly those in the span |
| App.Builder.constructor | src/main/java/nca/App.java:253-255 | the builder starts with empty stacks, no state tokens and no annotations |
| App.Builder.AnnotateEach | src/main/java/nca/App.java:142-154 | the D and P loops append the note to every position token of the set and compute the least and largest id |
| App.Builder.AnnotateSpanLoop | src/main/java/nca/App.java:188-192 | the stateTokens loop appends the associated range to exactly the tokens whose ids lie in the counter's span |
| App.Builder.ComputeSetsForCounter | src/main/java/nca/App.java:138-194 | the counter rule: an empty operand stack throws; otherwise the operand is replaced by CounterStep's sets and the tokens annotated as CounterStep says |
| App.Builder.ComputeSetsForStar | src/main/java/nca/App.java:196-213 | the star rule: an empty stack throws; otherwise the operand is replaced by StarStep's sets and its last positions record the star |
| App.Builder.ComputeSetsForChar | src/main/java/nca/App.java:215-222 | a character or class pushes the sets of one position |
| App.Builder.ApplyOperation | src/main/java/nca/App.java:339-370 | pops the operator and two operands (too few operands throws) and pushes their union or their concatenation, with the tagged follow pairs |
| App.Builder.ReduceWhile | src/main/java/nca/App.java:303-311 | applies operators while the top one is of the given kinds |
| App.Builder.CloseGroup | src/main/java/nca/App.java:264-269 | applies operators down to `(` and pops it; an empty operator stack throws |
| App.Builder.Dispatch | src/main/java/nca/App.java:260-296 | the first switch, case by case, including the BAR assert and the unsupported-token exception |
| App.Builder.FinishOperand | src/main/java/nca/App.java:297-315 | after an operand that ends its group, reduces the concatenations and then pushes a concatenation or reduces the alternatives |
| App.Builder.Process | src/main/java/nca/App.java:258-319 | one pass of the loop body computes Step, exceptions included, and records position tokens |
| App.LexedSuffix | src/main/java/nca/MyScanner.java:92-124 | each getToken call yields the next token of the lexed stream, or its ending |
| App.RunFromStep | src/main/java/nca/App.java:257-320 | one loop pass is one step of the run over the token stream |
| App.ComputeSetsAndGetStateTokens | src/main/java/nca/App.java:248-323 | the result, exceptions included, is Build on the lexed token stream, on every stream on which the loop returns |
| App.Pass | src/main/java/nca/App.java:258-319 | one pass reads the lookahead and runs the body, and the run of the whole stream still ends in the same outcome |
| SetBuilder.ConcatWithLambda | src/main/java/nca/App.java:356-360 | L is empty or holds only the empty string, so concatenating with it on either side gives back the operand or nothing |
| SetBuilder.ConcatEpsilonLeft | src/main/java/automata/TokenString.java:43-48 | the empty string is a left unit of concatenation |
| SetBuilder.ConcatEpsilonRight | src/main/java/automata/TokenString.java:43-48 | the empty string is a right unit of concatenation |
| SetBuilder.PairsOfPositions | src/main/java/nca/App.java:237-246 | tagged concatenation of single positions yields exactly the tagged pairs (d, p) with d a prefix and p a suffix |
| SetBuilder.CharRuleMeaning | src/main/java/nca/App.java:215-222 | a character is one position, first and last, not nullable, with no follow pairs |
| SetBuilder.StarRuleMeaning | src/main/java/nca/App.java:196-213 | a star keeps first and last, is nullable, and adds exactly the star-tagged pairs from every last to every first position |
| SetBuilder.CounterRuleMeaning | src/main/java/nca/App.java:155-178 | a counter is nullable exactly when its lower bound is at most 0 or its operand is nullable; a positive lower bound drops to 0 for a nullable operand; loop pairs are added exactly when the upper bound is at least 2 |
| SetBuilder.AltRuleMeaning | src/main/java/nca/App.java:345-354 | an alternation is nullable exactly when one side is, and keeps the Glushkov shape |
| SetBuilder.ConcatRuleMeaning | src/main/java/nca/App.java:355-364 | the Glushkov equations for concatenation: first, last, nullable and follow, in terms of the operands |
| SetBuilder.ConcatRuleParts | src/main/java/nca/App.java:356-360 | first(ef), last(ef) and the nullability of ef as the concat calls compute them |
| SetBuilder.ConcatRuleFollow | src/main/java/nca/App.java:361-363 | the follow pairs of ef are those of e, those of f and the tagged pairs from last(e) to first(f) |
| SetBuilder.Annotate | src/main/java/nca/App.java:142-148 | the note is appended to exactly the given tokens; every other token's lists are unchanged and no list shrinks |
| SetBuilder.AnnotateSpan | src/main/java/nca/App.java:188-192 | the span loop only appends, and only to state tokens |
| SetBuilder.CounterNotes | src/main/java/nca/App.java:142-192 | the counter's annotations only append to the tokens' lists |
| SetBuilder.StarNotes | src/main/java/nca/App.java:198-205 | the star's annotations only append to the tokens' lists |
| SetBuilder.Applied | src/main/java/nca/App.java:339-370 | applyOperation throws exactly when fewer than two operands are stacked; otherwise the stack shrinks by one, the operator is popped and the rest is unchanged |
| SetBuilder.Reduced | src/main/java/nca/App.java:303-311 | the reduction pops a run of operators of the given kinds, one operand each, until the top is of another kind |
| SetBuilder.Closed | src/main/java/nca/App.java:264-269 | a closing parenthesis pops every operator above the nearest `(` and that `(`, one operand per operator |
| SetBuilder.CounterStep | src/main/java/nca/App.java:271-273 | the counter case keeps every operand in the Glushkov shape |
| SetBuilder.StarStep | src/main/java/nca/App.java:274-276 | the star case keeps every operand in the Glushkov shape |
| SetBuilder.Operate | src/main/java/nca/App.java:260-296 | the first switch keeps every operand in the Glushkov shape |
| SetBuilder.AfterOperand | src/main/java/nca/App.java:297-315 | the second switch keeps every operand in the Glushkov shape |
| SetBuilder.Step | src/main/java/nca/App.java:257-320 | a pass of the loop keeps every operand in the Glushkov shape |
| SetBuilder.PositionsIds | src/main/java/nca/App.java:316-318 | the position tokens kept from a stream are exactly the tokens whose ids the scanner's position sequence lists, in order |
| SetBuilder.ConcatAmong | src/main/java/nca/App.java:237-246 | concat and concatAndSaveTransitionToken only rearrange the tokens of their operands |
| SetBuilder.RulesAmong | src/main/java/nca/App.java:138-213 | the counter and star rules, and the alternation and concatenation of applyOperation, build their sets only from the tokens of their operands |
| SetBuilder.OperateAmong | src/main/java/nca/App.java:260-296 | the first switch leaves the position tokens alone and keeps every operand made of tokens seen, once the current token counts as seen |
| SetBuilder.StepAmong | src/main/java/nca/App.java:257-319 | a pass records its token exactly when it is a position, and keeps every operand made of recorded positions |
| SetBuilder.RunAmong | src/main/java/nca/App.java:256-320 | the loop ends with the position tokens of the whole stream recorded, in order, and every operand made of them |
| SetBuilder.BuildPlaced | src/main/java/nca/App.java:248-323 | a successful build returns position tokens numbered 1, 2, 3, … in order and sets of the Glushkov shape made only of those tokens |
| Nfas.AddMatching | src/main/java/automata/NFA.java:69-73 | the loop over one state's symbols adds the lists of exactly the symbols that match the character |
| Nfas.Nfa.constructor | src/main/java/automata/NFA.java:93-101 | the NFA records the NCA's regex, start id nca.size(), and the states, lists and final states the search built |
| Nfas.Nfa.GetNextMergedState | src/main/java/automata/NFA.java:66-76 | the next active set holds every destination of a matching symbol of an active state |
| Nfas.Nfa.TryMatch | src/main/java/automata/NFA.java:78-91 | true exactly when the states active after the whole input include a final state |
| Nfas.Nfa.BuiltMatchesNca | src/main/java/nca/NFA.java:72-85 | a built NFA accepts exactly the inputs its NCA accepts |
| Nfas.Unfold | src/main/java/nca/NFA.java:87-122 | the constructor throws exactly when some reachable configuration makes the NCA throw; otherwise it builds the NFA of exactly the reachable configurations, with start id nca.size() |
| Nfas.BreadthFirst | src/main/java/nca/NFA.java:95-121 | the queue loop, from the root configuration alone, throws only when a reachable configuration throws, and otherwise stops with the queue empty and every state it met expanded |
| Nfas.Step | src/main/java/nca/NFA.java:100-121 | one pass of the queue loop expands the head state, or throws because a reachable configuration throws |
| Nfas.ExpandSymbols | src/main/java/nca/NFA.java:105-120 | the loop over the state's symbols gives it one list per symbol |
| Nfas.ExpandSymbol | src/main/java/nca/NFA.java:106-119 | the list of one symbol names the states of exactly the configurations the transition function yields |
| Nfas.Transitions | src/main/java/nca/NFA.java:107 | evaluateTransitionFunction succeeds exactly when no guard or update throws and yields exactly the successor configurations |
| Nfas.AddTransitions | src/main/java/nca/NFA.java:106-119 | the list built for the yielded configurations becomes the state's entry for the symbol |
| Nfas.CollectList | src/main/java/automata/NFA.java:121-139 | the inner loop meets each yielded configuration in turn, one entry each (two for a known one in the automata copy) |
| Nfas.Visit | src/main/java/automata/NFA.java:123-138 | a new configuration gets the next id and joins the queue; a known one is named by its id |
| Nfas.Started | src/main/java/nca/NFA.java:93-99 | the search starts with the root configuration, id nca.size(), in the queue |
| Nfas.Bounded | src/main/java/nca/NFA.java:100 | the search never meets more configurations than there are plausible ones, so it ends |
| Nfas.Done | src/main/java/nca/NFA.java:100-121 | an empty queue means the NFA is finished and no reachable configuration throws |
| Nfas.Popped | src/main/java/nca/NFA.java:101 | the head of the queue is the next state to expand |
| Nfas.FinalThrows | src/main/java/nca/NFA.java:102 | a finalization that throws on a queued state is a reachable configuration that throws |
| Nfas.MoveThrows | src/main/java/nca/NFA.java:107 | a transition function that throws on a queued state is a reachable configuration that throws |
| Nfas.Begin | src/main/java/nca/NFA.java:102-104 | a state is final exactly when its finalization holds |
| Nfas.Finish | src/main/java/nca/NFA.java:105-120 | a state with a list for every symbol is done |
| Nfas.AddList | src/main/java/nca/NFA.java:119 | a finished list is the state's entry for its symbol |
| Nfas.MeetNew | src/main/java/nca/NFA.java:109-113 | a configuration not met before gets the next id, joins the queue and the list |
| Nfas.MeetAgain | src/main/java/automata/NFA.java:124-130 | a configuration met before is named by its id, once in the nca copy and twice in the automata copy |
| NfaSearch.ReachableStep | src/main/java/nca/NFA.java:107-113 | a move out of a reachable configuration reaches its destination |
| NfaSearch.InInitIds | src/main/java/nca/NcaTransition.java:136-161 | every counter a state initialises is among the counters that ever get a value |
| NfaSearch.AllMaps | src/main/java/nca/Configuration.java:11-13 | the counter maps over given keys with Java int values form a finite set |
| NfaSearch.AllMapsStep | src/main/java/nca/Configuration.java:11-13 | the maps over one more key are those over the others, with or without a value for it |
| NfaSearch.PlausibleInUniverse | src/main/java/nca/NFA.java:100-121 | every configuration whose state exists and whose counters get values is in one finite set |
| NfaSearch.MovesPlausible | src/main/java/nca/NCA.java:185-196 | the moves of such a configuration are again such configurations |
| NfaSearch.Meet | src/main/java/nca/NFA.java:109-113 | meeting a new configuration keeps the search's invariant with the next id handed out |
| NfaSearch.Start | src/main/java/nca/NFA.java:93-99 | the search's invariant holds after the start state is queued |
| NfaSearch.UnfoldingHead | src/main/java/nca/NFA.java:101 | the head of the queue is a met configuration of a state the NCA has |
| NfaSearch.BeginState | src/main/java/nca/NFA.java:102-104 | evaluating the finalization marks the state final exactly when it holds |
| NfaSearch.MetBound | src/main/java/nca/NFA.java:109-113 | the number of configurations met is bounded |
| NfaSearch.RegistryGrows | src/main/java/nca/NFA.java:110 | a new configuration gets the next id, and ids stay one-to-one with configurations |
| NfaSearch.ListStep | src/main/java/automata/NFA.java:124-138 | a list grows by one entry per yielded configuration, or two for a known one in the automata copy |
| NfaSearch.ListIsRow | src/main/java/nca/NFA.java:106-119 | a finished list names exactly the successor configurations |
| NfaSearch.AddRow | src/main/java/nca/NFA.java:119 | putting the list into the row keeps the search's invariant |
| NfaSearch.FinishState | src/main/java/nca/NFA.java:100-121 | after its last symbol the head state is expanded |
| NfaSearch.RunsStayIn | src/main/java/nca/NFA.java:100-121 | a set holding the root and closed under moves holds every reachable configuration |
| NfaSearch.Closed | src/main/java/nca/NFA.java:100 | when the queue is empty, the configurations met are closed under moves |
| NfaSearch.Finished | src/main/java/nca/NFA.java:87-122 | when the queue empties, the NFA is exactly the unfolding of the reachable configurations and none of them throws |
| NfaSearch.ThrowsReachable | src/main/java/nca/NFA.java:102-107 | a throwing state of the search is a reachable configuration that throws |
| Matching.LiteralSymbol | src/main/java/nca/NFA.java:50-58 | a single character other than `.` and `\` is matched literally, whatever the regex engine does |
| Matching.NextMergedOneMore | src/main/java/nca/NFA.java:62-68 | visiting one more active state adds the matching destinations of its row |
| Matching.RowTargetsOneMore | src/main/java/nca/NFA.java:63-67 | visiting one more symbol adds its list exactly when it matches |
| Matching.ActiveAfterSnoc | src/main/java/nca/NFA.java:76-78 | reading one more character is one more merged step |
| Matching.UnfoldedSimulates | src/main/java/nca/NFA.java:87-122 | the unfolded NFA's rows list exactly the successor configurations, its finals are exactly the accepting configurations, and its start is the root |
| Matching.Listed | src/main/java/nca/NFA.java:105-119 | a listed destination carries a successor configuration |
| Matching.Lists | src/main/java/nca/NFA.java:105-119 | every successor configuration is carried by a listed destination |
| Matching.StepAgrees | src/main/java/nca/NFA.java:60-70 | one merged step of the NFA is one step of the NCA on the configurations |
| Matching.StepSound | src/main/java/nca/NFA.java:60-70 | every state the merged step reaches carries a successor configuration |
| Matching.InNcaNext | src/main/java/nca/NCA.java:185-196 | a successor on a matching symbol is in the NCA's next set |
| Matching.StepComplete | src/main/java/nca/NFA.java:60-70 | every successor configuration is carried by a state the merged step reaches |
| Matching.ActiveAgrees | src/main/java/nca/NFA.java:72-78 | after any input, the NFA's active states carry exactly the NCA's configurations |
| Matching.TryMatchAgrees | src/main/java/nca/NFA.java:72-85 | tryMatch on an unfolded NFA is true exactly when the NCA accepts the input, in both copies |
| Matching.GenerationsAgree | src/main/java/automata/NFA.java:78-143 | the NFAs the two copies build from one NCA accept the same inputs, despite the automata copy's duplicate entries |
| Matching.EmptyInput | src/main/java/automata/NCA.java:64-68 | the empty input is accepted exactly when the regex's sets are nullable |
| Products.FanHas | src/main/java/automata/ProductNFA.java:154-163 | the loop over destB lists exactly the pairs of destA with each destination of the second state |
| Products.CrossHas | src/main/java/automata/ProductNFA.java:149-164 | the two loops list exactly the pairs of a destination of the first state with one of the second |
| Products.ProductEdge | src/main/java/automata/ProductNFA.java:147-165 | a product edge on a symbol moves both states along that symbol's lists |
| Products.StepTogether | src/main/java/automata/ProductNFA.java:147-165 | a product edge out of a pair reached together leads to a pair reached together |
| Products.RowPairsInUniverse | src/main/java/automata/ProductNFA.java:147-165 | every pair a row lists is a pair of NFA states, so the search is finite |
| Products.NewInMeaning | src/main/java/automata/ProductNFA.java:157-160 | the pairs queued from a list are exactly its pairs not met before, each once |
| Products.NewInAppend | src/main/java/automata/ProductNFA.java:157-160 | queueing from two lists in turn is queueing from the first, then from the second what neither met |
| Products.FanOut | src/main/java/automata/ProductNFA.java:154-163 | the innermost loop appends the fan of destA to the list, records each pair met and queues exactly the new ones |
| Products.FanStep | src/main/java/automata/ProductNFA.java:156-162 | one more pair of the fan keeps the list, the set of pairs met and the queue in step with the fan so far |
| Products.ExpandSymbol | src/main/java/automata/ProductNFA.java:148-164 | the list of a symbol is ProductList: empty when the second state lacks the symbol, else every pair of destinations |
| Products.RowPairsAdd | src/main/java/automata/ProductNFA.java:148 | adding a symbol's list to a row adds its pairs |
| Products.ExpandPair | src/main/java/automata/ProductNFA.java:147-165 | the row of a pair is ProductRow: one list per symbol of its first state; the new pairs are recorded and queued |
| Products.TargetsAdd | src/main/java/automata/ProductNFA.java:146-165 | a new row adds its pairs to those the rows list |
| Products.RowTogether | src/main/java/automata/ProductNFA.java:147-165 | the pairs a row lists are reached together when its pair is |
| Products.RootTogether | src/main/java/automata/ProductNFA.java:141-142 | the root pairs the start state with itself, reached together on the empty word |
| Products.ReachedInRows | src/main/java/automata/ProductNFA.java:145-166 | rows holding the root and closed under their edges hold every pair of states reached on the same word |
| Products.TogetherInRows | src/main/java/automata/ProductNFA.java:145-166 | such rows hold every pair reached together |
| Products.AllTogetherInRows | src/main/java/automata/ProductNFA.java:145-166 | such rows hold all pairs reached together |
| Products.QueueStep | src/main/java/automata/ProductNFA.java:145-160 | one turn pops the head and appends the new pairs, and the queued order stays the root followed by every pair met, once |
| Products.Queued | src/main/java/automata/ProductNFA.java:144-159 | a queued pair is the root or a pair met |
| Products.Shrinks | src/main/java/automata/ProductNFA.java:145 | the measure of the loop goes down |
| Products.ExploreStep | src/main/java/automata/ProductNFA.java:145-166 | one turn of the constructor's loop keeps its invariant |
| Products.ExploreShrinks | src/main/java/automata/ProductNFA.java:145-166 | the constructor's loop ends: each turn meets a new pair or shortens the queue |
| Products.RowsAdd | src/main/java/automata/ProductNFA.java:148 | every row the loop records is that pair's ProductRow |
| Products.OrderCount | src/main/java/automata/ProductNFA.java:157-160 | the queued pairs are the root and each pair met, once |
| Products.ExploreDone | src/main/java/automata/ProductNFA.java:145-166 | when the queue empties, the rows are exactly those of the pairs reached together, each its ProductRow |
| Products.Explore | src/main/java/automata/ProductNFA.java:139-167 | the constructor's search expands the root and each pair met once, leaving rows for exactly the pairs reached together |
| ProductNfas.UnfoldedIsReady | src/main/java/automata/ProductNFA.java:141 | an NFA the unfolding built has the start state and the destinations the product needs |
| ProductNfas.ReachRoot | src/main/java/automata/ProductNFA.java:121 | the root is reachable from itself |
| ProductNfas.ReachStep | src/main/java/automata/ProductNFA.java:127-133 | an edge out of a reachable pair leads to a reachable pair |
| ProductNfas.ClosedHoldsReach | src/main/java/automata/ProductNFA.java:117-137 | a set holding the root and closed under edges holds every reachable pair |
| ProductNfas.StaleAppend | src/main/java/automata/ProductNFA.java:129-131 | the already-visited entries of two queued lists add up |
| ProductNfas.StaleNone | src/main/java/automata/ProductNFA.java:129-131 | a list of unvisited pairs has no visited entries |
| ProductNfas.EnqueueList | src/main/java/automata/ProductNFA.java:128-132 | the inner loop queues exactly the listed pairs not yet visited |
| ProductNfas.EnqueueRow | src/main/java/automata/ProductNFA.java:127-133 | the loop over a row queues exactly its pairs not yet visited |
| ProductNfas.AddedReach | src/main/java/automata/ProductNFA.java:127-133 | the pairs queued from the row of a reachable pair are reachable |
| ProductNfas.QueueAfter | src/main/java/automata/ProductNFA.java:123-133 | the queue after a turn holds the rest of the old queue and the pairs added |
| ProductNfas.FindStep | src/main/java/automata/ProductNFA.java:122-135 | one turn of findAmbiguities keeps its invariant |
| ProductNfas.FindMeasure | src/main/java/automata/ProductNFA.java:122-135 | findAmbiguities ends: each turn visits a new pair or shortens the queue |
| ProductNfas.ProductNfa.constructor | src/main/java/automata/ProductNFA.java:139-167 | the product records the NFA's regex and configurations, roots at (start, start) and has rows for exactly the pairs reached together |
| ProductNfas.ProductNfa.FindAmbiguities | src/main/java/automata/ProductNFA.java:117-137 | the result is exactly the ambiguous pairs reachable from the root |
| ProductNfas.ProductNfa.IsAmbiguous | src/main/java/automata/ProductNFA.java:113-115 | true exactly when some reachable pair is ambiguous |
| ProductNfas.ProductNfa.MightBeAmbiguous | src/main/java/automata/ProductNFA.java:77-111 | a returned answer is true exactly when some approximate regex is judged ambiguous by the exact analysis, or more than one approximate regex exists; an exception comes only from an approximate regex whose analysis throws, so with none it always answers |
| ProductNfas.ProductNfa.CheckCounter | src/main/java/automata/ProductNFA.java:87-106 | for one counter: true only when the approximate regex of one of its occurrences is judged ambiguous, an exception only when the analysis of one throws, and false only when every one was analysed, none ambiguous, with the count raised by its occurrences |
| Approximations.FoundFailure | src/main/java/automata/ProductNFA.java:99-101 | an exception in the analysis of a counter's approximate regex is an exception of the analysis of one of the regex's approximate regexes |
| ProductNfas.ReachIsTogether | src/main/java/automata/ProductNFA.java:139-167 | in the product built, a pair is reachable from the root exactly when its two states are reached on the same word |
| ProductNfas.ReachedReachable | src/main/java/automata/ProductNFA.java:139-167 | any two states reached on the same word form a reachable pair |
| ProductNfas.AmbiguousMeaning | src/main/java/automata/ProductNFA.java:113-167 | isAmbiguous on a built product holds exactly when some word reaches two NFA states with the same NCA state and different counter values |
| Approximations.GetIndices | src/main/java/automata/ProductNFA.java:63-71 | getIndices returns exactly the ascending indices at which the pattern starts |
| Approximations.NoOccurrences | src/main/java/automata/ProductNFA.java:65-69 | where the pattern does not start, no index is added |
| Approximations.OccurrencesMeaning | src/main/java/automata/ProductNFA.java:63-71 | the indices are ascending, and an index is listed exactly when the pattern starts there |
| Approximations.DigitsEnd | src/main/java/automata/ProductNFA.java:20 | the run of digits `\d+` matches from a position: all digits, and stops at a non-digit or the end |
| Approximations.CounterLength | src/main/java/automata/ProductNFA.java:20 | a match of the counter pattern spans `{`, digits, an optional comma with optional digits, and `}`, with no `{` inside |
| Approximations.FindCounters | src/main/java/automata/ProductNFA.java:78-83 | the matcher loop collects exactly the texts of the non-overlapping matches of the counter pattern |
| Approximations.SkipChar | src/main/java/automata/ProductNFA.java:81 | where no match starts, the search moves on one character |
| Approximations.SkipMatch | src/main/java/automata/ProductNFA.java:81-82 | after a match the search resumes past it, passing no other match |
| Approximations.SkipChars | src/main/java/automata/ProductNFA.java:81 | a stretch where no match starts adds no counter to the set |
| Approximations.NoCounterUnchanged | src/main/java/automata/ProductNFA.java:90-92 | replaceAll leaves a text with no counter unchanged |
| Approximations.DigitsEndPrefix | src/main/java/automata/ProductNFA.java:89-90 | a digit run inside a prefix is the run of the whole text, cut at the prefix's end |
| Approximations.DigitsEndSuffix | src/main/java/automata/ProductNFA.java:91-92 | a digit run inside a suffix is the run of the whole text |
| Approximations.CounterInPrefix | src/main/java/automata/ProductNFA.java:89-90 | a counter match inside the prefix is a counter match of the regex |
| Approximations.CounterInSuffix | src/main/java/automata/ProductNFA.java:91-92 | a counter match inside the suffix is the same match of the regex |
| Approximations.CheckFits | src/main/java/automata/ProductNFA.java:88-91 | each index getIndices returns holds the counter text, so the substrings are in range |
| Approximations.FoundExact | src/main/java/automata/ProductNFA.java:102-104 | an approximate regex judged ambiguous makes the verdict true |
| Approximations.NoneExact | src/main/java/automata/ProductNFA.java:108-110 | when none is judged ambiguous, the verdict is whether more than one approximate regex was checked |
| Approximations.NoneExactAdd | src/main/java/automata/ProductNFA.java:86-107 | a counter none of whose approximate regexes is ambiguous adds its occurrences to the count |
| Approximations.TaggedCount | src/main/java/automata/ProductNFA.java:88 | a counter's checks are as many as its occurrences |
| Approximations.ChecksAdd | src/main/java/automata/ProductNFA.java:86-88 | checking one more counter adds one check per occurrence |
| Approximations.CounterChecked | src/main/java/automata/ProductNFA.java:81-88 | every counter found is checked at some index where it occurs |
| Approximations.SingleCheck | src/main/java/automata/ProductNFA.java:89-94 | when the regex has a single counter occurrence, its approximate regex is the regex itself |
| Approximations.OtherMatch | src/main/java/automata/ProductNFA.java:81-88 | with a single check, no counter match starts anywhere else |
| Approximations.NoMatchBefore | src/main/java/automata/ProductNFA.java:89-90 | with a single check, the prefix before the occurrence holds no counter match |
| Approximations.NoMatchAfter | src/main/java/automata/ProductNFA.java:91-92 | with a single check, the suffix after the occurrence holds no counter match |
| Approximations.OnlyCounter | src/main/java/automata/ProductNFA.java:78-83 | when every match of the counter pattern has the same text, the counter set holds that text alone |
| Approximations.OneCounterOnce | src/main/java/automata/ProductNFA.java:86-88 | one counter text occurring once gives exactly one check |
| Approximations.OneCounterTwice | src/main/java/automata/ProductNFA.java:86-88 | one counter text occurring twice gives exactly two checks, one per occurrence |
| Approximations.ExactImpliesVerdict | src/test/java/cli/TestApp.java:60 | a regex with counters that the exact analysis judges ambiguous is never judged unambiguous by the approximation |
| Approximations.OneCounterChecks | src/test/java/cli/TestApp.java:236 | `.*a{2}` has the one counter `{2}`, checked once, at index 3 |
| Approximations.OneCounterLengths | src/test/java/cli/TestApp.java:236 | in `.*a{2}` the counter pattern matches at index 3 only, with text `{2}` |
| Approximations.OneCounterStarts | src/test/java/cli/TestApp.java:236 | `{2}` starts only at index 3 of `.*a{2}` |
| Approximations.OneCounterApproximation | src/test/java/cli/TestApp.java:236 | the approximate regex of `.*a{2}` is itself |
| Approximations.OneCounterRegex | src/test/java/cli/TestApp.java:238-240 | on `.*a{2}` the approximate verdict equals the exact one, so the test's two expectations agree |
| Approximations.TwoOccurrenceCounters | src/test/java/cli/TestApp.java:237 | the second test regex (`.*`, then `ab{3}` or `cd{3}`) has the one counter `{3}` |
| Approximations.TwoOccurrenceLengths | src/test/java/cli/TestApp.java:237 | in the second test regex the counter pattern matches at indices 5 and 11 only, each with text `{3}` |
| Approximations.TwoOccurrenceIndices | src/test/java/cli/TestApp.java:237 | `{3}` occurs at indices 5 and 11 |
| Approximations.TwoOccurrenceStarts | src/test/java/cli/TestApp.java:237 | `{3}` starts only at indices 5 and 11 |
| Approximations.TwoOccurrenceChecks | src/test/java/cli/TestApp.java:237 | two approximate regexes are checked |
| Approximations.TwoOccurrenceRegex | src/test/java/cli/TestApp.java:239-241 | on the second test regex (`.*`, then `ab{3}` or `cd{3}`) mightBeAmbiguous is true whatever the exact analysis says, as the test expects |

## Left out

- `NcaTransitions.GetUpdatedCounterValues`: follows the corrected update `Updated` of the Findings row. It omits the assert at NcaTransition.java line 137, so it returns a map where Java with assertions enabled throws AssertionError. `NcaTransitions.AsWrittenExactly` states exactly where the two differ.
- `NcaTransitions.ResetWhileBelow`: the loop of the corrected update. It does not assert, before its break test, that each visited counter has a value; `NcaTransitions.ResetBelowChecked` is the loop with that assert.
- `NcaTransitions.BackwardCounterUpdate`: is stated for the corrected update. For the update as written it holds where `NcaTransitions.VisitedHaveValues` holds, and otherwise the result is AssertionError (`NcaTransitions.AsWrittenExactly`).
- `Ncas.Nca.EvaluateTransitionFunction`: "throws exactly when a guard or update throws" uses the corrected update. With the Java assert at NcaTransition.java line 137, it also throws on an allowed backward counter edge whose destination initialises a visited counter without a value.
- `Ncas.Nca.Collect`: calls the corrected `GetUpdatedCounterValues`, so the line-137 AssertionError is not among the throws it collects.
- `Nfas.Transitions`: its success condition uses the corrected update and does not include the line-137 AssertionError.
- `Nfas.Unfold`, `Nfas.BreadthFirst`, `Nfas.Step`, `Nfas.ExpandSymbols`, `Nfas.ExpandSymbol`: "throws exactly when a reachable configuration throws", and the lists they build, are about the corrected update. The Java constructor with assertions enabled also throws when a reachable configuration meets the line-137 assert, as for the regex of the Findings row (`NcaTransitions.AssertRejectsCounterLoop` exhibits the edge, written out by hand).
- `Ncas.Nca.constructor`: the asserts it runs are preconditions (`NcaInput` and `NcaEdges(sat).Ok?`). `Ncas.BuildMeetsNcaInput` proves that a successful build meets `NcaInput`. The model does not prove that the annotations of a successful build satisfy the asserts of addForwardTransition and addBackwardTransition in the F loop (`AssertsHold`), so the composition `glushkov` is not shown to be free of those AssertionErrors.
- Command-line front end and file input (`cli/App.java`, `App.main`, `readFile`, `IterableLines`, `Config`): I/O only, none of it is part of the construction.
- Regex preprocessing before scanning (`preprocessRegex`, `translatePlus`, `translateUnboundedCounters`, `containsCounter`) and the ANTLR rewrite visitors: the ANTLR grammar and generated parser are not part of this model. The model starts from the text the scanner receives.
- `glushkov` in both generations: it is the composition of `computeSetsAndGetStateTokens` and the NCA constructor, and both are modelled separately. The automata version first applies the ANTLR rewrite of unbounded counters, which is left out as stated above.
- Character-class matching by `String.matches` in `checkForCharacterMatch`: Java's regex engine is not modelled. The class test is the parameter `classMatch`. Literal characters, `.` and the escapes are modelled.
- `App.ComputeSetsAndGetStateTokens`: requires that the scan terminates (`!BuildHangs`). On an unclosed `[` or `{` the Java scanner's read loop never returns normally: it appends the end-of-input sentinel to its `StringBuilder` on every pass, so the buffer grows until the program dies with an OutOfMemoryError. The model idealises this as a scan that does not return (`Diverges`, `Hanging`); the model proves when that happens (`Scanner.CounterUnclosed`, `Scanner.ScanClassVerbatim`) and leaves those inputs out of the method's contract.
- `App.ComputeSetsAndGetStateTokens`: in the automata generation the `PLUS` case is excluded by the precondition `HandlesAll`, because it depends on `automata/Token.java`, which is not part of this model. In the `nca` generation a `+` token is ignored, as in Java: the first switch of the loop has no case for it and adds no sets (App.java lines 290-294), and the second switch then treats it like any other token that ends an operand, so `a+` builds the sets of `a`.
- The diagnostic lines the `nca` copy of `computeSetsAndGetStateTokens` prints for a token its first switch does not handle (App.java lines 291-293): output only; the model goes on exactly as Java does after printing.
- `toString` of the NCA, the NFA, their states and transitions, and of `CounterRange` (whose range text alone is `Counters.RangeText`): debugging output only. `Sets.toString`, `Token.toString`, `Configuration.toString` and the shim rendering are modelled.
- `equals` and `hashCode` of `CounterRange`, `NcaState`, `Configuration`, `NfaStateShim` and the product's `State`, and `hashCode` of `TokenString`: modelled only through value equality, which is what the hash sets and maps use them for. `Configuration.equals` and `State.equals` compare exactly the fields of the model's datatypes. `NcaState` and `CounterRange` are named by their ids, which their `equals` compare. `NfaStateShim.equals` ignores the id, which is -1 on every shim. So in each case the source's equality is the model's.
- NFA states are identified by their integer id rather than by `NfaState` objects; `NfaState.equals` compares ids, so nothing observable changes.
- `Ncas.Nca.constructor`: `NcaTransition` has no `equals`, so Java sets of transitions are sets of distinct objects. The model keeps sets of transition values, so two distinct transition objects with equal fields would be one element. The constructor makes one transition per element of a set of token strings, and distinct elements give distinct values.
- `ProductNfas.ProductNfa.MightBeAmbiguous`: the exact analysis of each approximate regex is the parameter `analyse`, which returns the verdict or the exception (`CheckCounter` takes it too). That analysis is parsing with the rewrite visitor, `glushkov`, the NFA, the product and `isAmbiguous`, and its rewrite step is not modelled. The counter pattern, `getIndices` and `replaceAll` are modelled as written.
- `ProductNfas.ProductNfa.MightBeAmbiguous`: the assert at ProductNFA.java line 84 is a precondition. The assert at line 93 compares strings by reference and is left out. The printing at lines 95-98 is left out.
- `ProductNfas.ProductNfa.constructor`: when a pair is reached a second time, Java makes a fresh `State` object with no transitions, and the model keys the transition table by the pair instead. A pair with no row counts as having no transitions.
- Java strings are UTF-16: `charAt`, `length`, `toCharArray` and `String.compareTo` work on 16-bit code units, while the model's `string` is a sequence of whole characters. The two agree on text without characters outside the Basic Multilingual Plane (no emoji, say). The lines below name each place where such characters make a difference.
- `Scanner.MyScanner.GetToken`: a character outside the Basic Multilingual Plane is one position of the model's scanner and two `char`s of the Java one, so positions, and the tokens of a surrogate pair, differ on such input (the same holds for `Scanner.ScanToken`).
- `Nfas.Nfa.TryMatch`: takes one step for a character outside the Basic Multilingual Plane, where the Java `tryMatch` takes two, one per surrogate (`tryMatch(".", "\uD83D\uDE00")` accepts in the model and not in Java). `Matching.TryMatchAgrees` is stated for the model's characters.
- `TokenStrings.StringCompareLaws`: compares whole characters, not UTF-16 code units, so symbols with characters outside the Basic Multilingual Plane can order differently than `String.compareTo` orders them; the same holds for `TokenStrings.StringCompareTransitive` and `TokenStrings.CompareTokenStrings`.
- `Util.ParseInt`: accepts only the ASCII digits 0-9, while `Integer.parseInt` also accepts the other Unicode decimal digits (Arabic-Indic digits, say). The scanner hands it the text between `{` and `}`.
- 32-bit arithmetic: Java `int` wrap-around is written out (`Util.Wrap32`) where a counter value or a parsed bound can reach it. Elsewhere the model's integers are unbounded.
- The test suites, experiment drivers and `plot_times.py`: they exercise the program and are not part of it. The regexes of `TestApp.testAnalysesWithExamples` are modelled as concrete lemmas.
- Concurrency: the program has none.

## Findings

| source | as written | input that shows it | evidently intended | confidence | as-written member | corrected member |
|---|---|---|---|---|---|---|
| src/main/java/nca/NcaTransition.java:137 | for a backward-counter transition, the update asserts that every counter the destination initialises already has a value | the regex that repeats, three times, the alternation of `x` and `p{2}`: the configuration at `x` with only counter 2 set takes counter 2's back edge to `p`, whose initialised counters are counter 1 and counter 2; counter 1 has no value, so the assert fails (with assertions enabled) although the guard allowed the edge; the edge and the values are traced from the source by hand, and the lemma states the update on them, not the build that yields them | reset counter 1 to 1 and increment counter 2, as for any other inner counter | not executed | `NcaTransitions.UpdatedAsWritten`, `NcaTransitions.AssertRejectsCounterLoop`, `NcaTransitions.AsWrittenExactly` | `NcaTransitions.Updated` |
