/**
 * The declaration parser and text generator of preprocessor.c, as pure
 * functions over the source text: parseFunction (argument splitting and the
 * argument-count check), the emission of one stub per accepted call, the
 * scan loop of main that finds `newState(...)` and `newTransition(...)`
 * calls not preceded by `define`, and the two enumerations printed at the
 * end. The imperative version (module PreprocessorImpl) is proved against
 * these functions.
 */
module DeclParser {
  import opened Common
  import opened Lexer

  /** Which registration macro a call invokes (C `function_type`). */
  datatype FunctionKind = NewState | NewTransition

  /**
   * One argument of a call (C `argument`): from the text of its first token
   * up to the start of the top-level `,` or `)` that ends it.
   */
  datatype Span = Span(start: nat, end: nat)

  /** What parsing the rest of a call yields. */
  datatype CallResult =
    | MissingParentheses          // the call name is not followed by `(`
    | Unterminated                // end of stream inside the argument list
    | TooManyArguments            // the C `assert` on the 10-slot argument array fails
    | Arguments(args: seq<Span>)  // the argument list, closed by its top-level `)`

  /** The capacity of the C `Arguments` array. */
  const MaxArguments: nat := 10
  const StateArgumentCount: nat := 3
  const TransitionArgumentCount: nat := 5

  /** The characters of an argument (`%.*s`). */
  function Text(s: seq<char>, a: Span): seq<char> {
    if a.start <= a.end <= |s| then s[a.start..a.end] else []
  }

  /**
   * Argument spans lie in the source in order, each ending at the comma that
   * closed it, except the last one of a closed list, which ends at the `)`.
   * Stated from the back, the way the argument loop appends.
   */
  predicate WellSplit(s: seq<char>, args: seq<Span>, closed: bool)
    decreases |args|
  {
    if args == [] then true
    else
      var last := args[|args| - 1];
      && WellSplit(s, args[..|args| - 1], false)
      && last.start <= last.end < |s|
      && s[last.end] == (if closed then ')' else ',')
      && (|args| > 1 ==> args[|args| - 2].end < last.start)
  }

  /** Closing one more argument at its separator keeps the spans well split. */
  lemma WellSplitAppend(s: seq<char>, done: seq<Span>, a: Span, closed: bool)
    requires WellSplit(s, done, false)
    requires a.start <= a.end < |s| && s[a.end] == (if closed then ')' else ',')
    requires |done| > 0 ==> done[|done| - 1].end < a.start
    ensures WellSplit(s, done + [a], closed)
    ensures (done + [a])[..|done|] == done
  {
    assert (done + [a])[..|done|] == done;
  }

  /**
   * The same property argument by argument: every span lies in the source,
   * ends at a comma (the last of a closed list at the `)`), and comes after
   * the one before it.
   */
  lemma {:induction false} WellSplitElements(s: seq<char>, args: seq<Span>, closed: bool)
    requires WellSplit(s, args, closed)
    ensures forall i :: 0 <= i < |args| ==> args[i].start <= args[i].end < |s|
    ensures forall i :: 0 <= i < |args| ==> s[args[i].end] == (if closed && i == |args| - 1 then ')' else ',')
    ensures forall i, j :: 0 <= i < j < |args| ==> args[i].end < args[j].start
    decreases |args|
  {
    if args != [] {
      var init := args[..|args| - 1];
      WellSplitElements(s, init, false);
      assert forall i :: 0 <= i < |init| ==> args[i] == init[i];
    }
  }

  /** One pass of the argument loop of parseFunction: either the call is over, or the loop goes on. */
  datatype Step =
    | Stop(result: CallResult, at: nat)
    | Continue(at: nat, current: Option<nat>, done: seq<Span>)

  /**
   * One token t of the argument loop, read with the cursor moving on to q:
   * `current` is the start of the argument being read (None until its first
   * token is seen) and `done` the arguments already closed by a top-level
   * comma. A nested `(` or `{` is skipped as a whole, so commas inside it
   * never split.
   */
  function SplitStep(s: seq<char>, t: Token, q: nat, current: Option<nat>, done: seq<Span>): (r: Step)
    requires q <= |s|
    ensures r.Continue? ==> t.kind != EndOfStream && q <= r.at <= |s| && |r.done| <= |done| + 1
    ensures r.Stop? ==> r.at == q
  {
    var start := if current.Some? then current.value else t.start;
    if t.kind == EndOfStream then
      Stop(Unterminated, q)
    else if t.kind == Comma then
      Continue(q, None, done + [Span(start, t.start)])
    else if t.kind == OpenParen then
      Continue(SkipNested(s, q, Parentheses), Some(start), done)
    else if t.kind == OpenBrace then
      Continue(SkipNested(s, q, Braces), Some(start), done)
    else if t.kind == CloseParen then
      Stop(Arguments(done + [Span(start, t.start)]), q)
    else
      Continue(q, Some(start), done)
  }

  /** The argument loop of parseFunction, from cursor p, stopping at the eleventh argument. */
  function SplitArguments(s: seq<char>, p: nat, current: Option<nat>, done: seq<Span>): (r: (CallResult, nat))
    requires p <= |s| && |done| <= MaxArguments
    ensures p <= r.1 <= |s|
    decreases |s| - p
  {
    if |done| == MaxArguments then
      (TooManyArguments, p)
    else
      var (t, q) := NextToken(s, p);
      match SplitStep(s, t, q, current, done)
      case Stop(result, q') => (result, q')
      case Continue(q', current', done') => SplitArguments(s, q', current', done')
  }

  /** Where the argument loop ends, given the outcome of one of its steps. */
  function Resume(s: seq<char>, step: Step): (CallResult, nat)
    requires step.at <= |s|
    requires step.Continue? ==> |step.done| <= MaxArguments
  {
    match step
    case Stop(result, q) => (result, q)
    case Continue(q, current, done) => SplitArguments(s, q, current, done)
  }

  /** The argument loop below its bound is one step followed by the rest of the loop. */
  lemma SplitArgumentsUnfold(s: seq<char>, p: nat, t: Token, q: nat, current: Option<nat>, done: seq<Span>)
    requires p <= |s| && |done| < MaxArguments && (t, q) == NextToken(s, p)
    ensures SplitStep(s, t, q, current, done).Continue? ==> |SplitStep(s, t, q, current, done).done| <= MaxArguments
    ensures SplitArguments(s, p, current, done) == Resume(s, SplitStep(s, t, q, current, done))
  {
  }

  /** parseFunction reads the argument loop only after a `(`. */
  lemma ParseCallUnfold(s: seq<char>, p: nat, t: Token, q: nat)
    requires p <= |s| && (t, q) == NextToken(s, p)
    ensures ParseCall(s, p) == if t.kind != OpenParen then (MissingParentheses, q) else SplitArguments(s, q, None, [])
  {
  }

  /**
   * The state of the argument loop between two tokens: the closed arguments
   * are well split and lie before the cursor, and so does the start of the
   * argument being read, which comes after them.
   */
  predicate Partial(s: seq<char>, p: nat, current: Option<nat>, done: seq<Span>) {
    && p <= |s| && |done| <= MaxArguments
    && WellSplit(s, done, false)
    && (current.Some? ==> current.value <= p)
    && (|done| > 0 ==> done[|done| - 1].end < p)
    && (|done| > 0 && current.Some? ==> done[|done| - 1].end < current.value)
  }

  /** What the argument loop relies on about a token t read from cursor p, the cursor moving on to q. */
  predicate Separated(s: seq<char>, p: nat, t: Token, q: nat) {
    && p <= t.start <= q <= |s|
    && (t.kind == Comma ==> t.start < |s| && s[t.start] == ',' && q == t.start + 1)
    && (t.kind == CloseParen ==> t.start < |s| && s[t.start] == ')' && q == t.start + 1)
  }

  lemma NextTokenSeparated(s: seq<char>, p: nat)
    requires p <= |s|
    ensures Separated(s, p, NextToken(s, p).0, NextToken(s, p).1)
  {
    SeparatorToken(s, p);
  }

  /**
   * One step keeps the loop state: it only ever adds one closed argument,
   * and a `)` closes the list with its last argument ending there and the
   * call ending just after it.
   */
  lemma SplitStepShape(s: seq<char>, p: nat, t: Token, q: nat, current: Option<nat>, done: seq<Span>)
    requires Partial(s, p, current, done) && |done| < MaxArguments && Separated(s, p, t, q)
    ensures var r := SplitStep(s, t, q, current, done);
            r.Continue? ==> Partial(s, r.at, r.current, r.done) && |done| <= |r.done| && r.done[..|done|] == done
    ensures var r := SplitStep(s, t, q, current, done);
            r.Stop? && r.result.Arguments? ==>
              && |r.result.args| == |done| + 1 && r.result.args[..|done|] == done
              && WellSplit(s, r.result.args, true)
              && r.at == r.result.args[|done|].end + 1
  {
    var start := if current.Some? then current.value else t.start;
    if t.kind == Comma {
      WellSplitAppend(s, done, Span(start, t.start), false);
    } else if t.kind == CloseParen {
      WellSplitAppend(s, done, Span(start, t.start), true);
    }
  }

  /** A closed argument list keeps the arguments already closed and adds at least one, never more than ten in all. */
  predicate Extends(done: seq<Span>, r: (CallResult, nat)) {
    r.0.Arguments? ==> |done| < |r.0.args| <= MaxArguments && r.0.args[..|done|] == done
  }

  /** The argument loop never drops or changes an argument it has closed. */
  lemma {:induction false} SplitArgumentsExtends(s: seq<char>, p: nat, current: Option<nat>, done: seq<Span>)
    requires Partial(s, p, current, done)
    ensures Extends(done, SplitArguments(s, p, current, done))
    decreases |s| - p
  {
    if |done| < MaxArguments {
      var (t, q) := NextToken(s, p);
      NextTokenSeparated(s, p);
      SplitStepShape(s, p, t, q, current, done);
      match SplitStep(s, t, q, current, done)
      case Stop(result, q') =>
        assert SplitArguments(s, p, current, done) == (result, q');
      case Continue(q', current', done') =>
        var r := SplitArguments(s, q', current', done');
        assert SplitArguments(s, p, current, done) == r;
        SplitArgumentsExtends(s, q', current', done');
        if r.0.Arguments? {
          PrefixOfPrefix(done, done', r.0.args);
        }
    }
  }

  /** A closed argument list is well split: in order, each argument ending at its top-level comma and the last at the `)`. */
  predicate ClosedWellSplit(s: seq<char>, r: (CallResult, nat)) {
    r.0.Arguments? ==> WellSplit(s, r.0.args, true)
  }

  /** Every argument list the loop closes is well split. */
  lemma {:induction false} SplitArgumentsWellSplit(s: seq<char>, p: nat, current: Option<nat>, done: seq<Span>)
    requires Partial(s, p, current, done)
    ensures ClosedWellSplit(s, SplitArguments(s, p, current, done))
    decreases |s| - p
  {
    if |done| < MaxArguments {
      var (t, q) := NextToken(s, p);
      NextTokenSeparated(s, p);
      SplitStepShape(s, p, t, q, current, done);
      match SplitStep(s, t, q, current, done)
      case Stop(result, q') =>
        assert SplitArguments(s, p, current, done) == (result, q');
      case Continue(q', current', done') =>
        assert SplitArguments(s, p, current, done) == SplitArguments(s, q', current', done');
        SplitArgumentsWellSplit(s, q', current', done');
    }
  }

  /** A closed argument list ends the call just after the `)` that closes its last argument. */
  predicate EndsAfterClose(r: (CallResult, nat)) {
    r.0.Arguments? && |r.0.args| > 0 ==> r.1 == r.0.args[|r.0.args| - 1].end + 1
  }

  /** A call whose argument list is closed ends just after the `)` that closes its last argument. */
  lemma {:induction false} SplitArgumentsEnd(s: seq<char>, p: nat, current: Option<nat>, done: seq<Span>)
    requires Partial(s, p, current, done)
    ensures EndsAfterClose(SplitArguments(s, p, current, done))
    decreases |s| - p
  {
    if |done| < MaxArguments {
      var (t, q) := NextToken(s, p);
      NextTokenSeparated(s, p);
      SplitStepShape(s, p, t, q, current, done);
      match SplitStep(s, t, q, current, done)
      case Stop(result, q') =>
        assert SplitArguments(s, p, current, done) == (result, q');
      case Continue(q', current', done') =>
        assert SplitArguments(s, p, current, done) == SplitArguments(s, q', current', done');
        SplitArgumentsEnd(s, q', current', done');
    }
  }

  lemma PrefixOfPrefix<T>(a: seq<T>, b: seq<T>, c: seq<T>)
    requires |a| <= |b| <= |c| && b[..|a|] == a && c[..|b|] == b
    ensures c[..|a|] == a
  {
    assert c[..|a|] == c[..|b|][..|a|];
  }

  /** parseFunction's parsing part, from just after the call name. */
  function ParseCall(s: seq<char>, p: nat): (r: (CallResult, nat))
    requires p <= |s|
    ensures p <= r.1 <= |s|
    ensures r.0.Arguments? ==>
              && 1 <= |r.0.args| <= MaxArguments
              && WellSplit(s, r.0.args, true)
              && r.1 == r.0.args[|r.0.args| - 1].end + 1
  {
    var (t, q) := NextToken(s, p);
    if t.kind != OpenParen then (MissingParentheses, q)
    else
      SplitArgumentsExtends(s, q, None, []);
      SplitArgumentsWellSplit(s, q, None, []);
      SplitArgumentsEnd(s, q, None, []);
      SplitArguments(s, q, None, [])
  }

  /** A token that ends an argument list: end of stream or a top-level `)`. */
  predicate EndsList(t: Token) {
    t.kind == EndOfStream || t.kind == CloseParen
  }

  /** A token that closes an argument: a top-level `,` or `)`. */
  predicate IsSeparator(t: Token) {
    t.kind == Comma || t.kind == CloseParen
  }

  /** Where reading goes on after token t, read with the cursor moving on to q: past a whole nested group after `(` or `{`. */
  function PastGroup(s: seq<char>, t: Token, q: nat): (r: nat)
    requires q <= |s|
    ensures q <= r <= |s|
  {
    if t.kind == OpenParen then SkipNested(s, q, Parentheses)
    else if t.kind == OpenBrace then SkipNested(s, q, Braces)
    else q
  }

  /**
   * The top-level tokens of an argument list from p: the tokens at nesting
   * depth zero, where a nested `( )` or `{ }` group stands for its opener
   * only, up to and including the first top-level `)` or end of stream.
   */
  function TopTokens(s: seq<char>, p: nat): (r: seq<Token>)
    requires p <= |s|
    ensures |r| >= 1 && EndsList(r[|r| - 1])
    ensures forall i :: 0 <= i < |r| - 1 ==> !EndsList(r[i])
    decreases |s| - p
  {
    var (t, q) := NextToken(s, p);
    if EndsList(t) then [t] else [t] + TopTokens(s, PastGroup(s, t, q))
  }

  /** The indices of the separators of toks from index i on, in increasing order. */
  function SeparatorsFrom(toks: seq<Token>, i: nat): (r: seq<nat>)
    requires i <= |toks|
    ensures forall j :: 0 <= j < |r| ==> i <= r[j] < |toks| && IsSeparator(toks[r[j]])
    ensures forall j :: 0 <= j < |r| - 1 ==> r[j] < r[j + 1]
    ensures forall j :: 0 <= j < |r| - 1 ==> r[j] + 1 < |toks|
    decreases |toks| - i
  {
    if i == |toks| then []
    else (if IsSeparator(toks[i]) then [i] else []) + SeparatorsFrom(toks, i + 1)
  }

  /** Every separator from index i on is listed. */
  lemma {:induction false} SeparatorsComplete(toks: seq<Token>, i: nat, m: nat)
    requires i <= m < |toks| && IsSeparator(toks[m])
    ensures m in SeparatorsFrom(toks, i)
    decreases |toks| - i
  {
    if i < m {
      SeparatorsComplete(toks, i + 1, m);
    }
  }

  /** The number of commas in toks from index i on. */
  function CommasFrom(toks: seq<Token>, i: nat): nat
    requires i <= |toks|
    decreases |toks| - i
  {
    if i == |toks| then 0 else (if toks[i].kind == Comma then 1 else 0) + CommasFrom(toks, i + 1)
  }

  /**
   * How an argument list read from top-level token k on ends, `done` being
   * closed already: it overflows exactly when ten arguments get closed by
   * commas, and is otherwise cut off or closed as its last top-level token says.
   */
  predicate OutcomeByCommas(toks: seq<Token>, k: nat, done: seq<Span>, r: CallResult)
    requires k < |toks|
  {
    var n := |done| + CommasFrom(toks, k);
    && (r == TooManyArguments <==> n >= MaxArguments)
    && (r == Unterminated <==> n < MaxArguments && toks[|toks| - 1].kind == EndOfStream)
    && (r.Arguments? <==> n < MaxArguments && toks[|toks| - 1].kind == CloseParen)
  }

  /**
   * A closed list read from top-level token k on, after `done` and with the
   * argument being read starting at `current`, keeps `done` and has one more
   * argument per separator: each ends at its separator and starts at the
   * first token after the previous one.
   */
  predicate SplitsAtSeparators(toks: seq<Token>, k: nat, seps: seq<nat>, current: Option<nat>, done: seq<Span>, r: CallResult)
    requires k < |toks| && seps == SeparatorsFrom(toks, k)
  {
    r.Arguments? ==>
      && |r.args| == |done| + |seps| && r.args[..|done|] == done
      && (forall i :: 0 <= i < |seps| ==> r.args[|done| + i].end == toks[seps[i]].start)
      && (forall i :: 0 <= i < |seps| - 1 ==> r.args[|done| + i + 1].start == toks[seps[i] + 1].start)
      && (|seps| > 0 ==> r.args[|done|].start == if current.Some? then current.value else toks[k].start)
  }

  /** The top-level tokens after a token that does not end the list are those read from where it leaves off. */
  lemma TopTokensRest(s: seq<char>, p: nat, toks: seq<Token>, k: nat)
    requires p <= |s| && k < |toks| && TopTokens(s, p) == toks[k..]
    requires !EndsList(NextToken(s, p).0)
    ensures toks[k] == NextToken(s, p).0 && k + 1 < |toks|
    ensures TopTokens(s, PastGroup(s, NextToken(s, p).0, NextToken(s, p).1)) == toks[k + 1..]
  {
    assert toks[k + 1..] == toks[k..][1..];
  }

  /** The start of the argument being read, once token t is seen. */
  function ArgumentStart(current: Option<nat>, t: Token): nat {
    if current.Some? then current.value else t.start
  }

  /** A top-level comma closes the argument being read and the split goes on after it. */
  lemma SplitsAfterComma(toks: seq<Token>, k: nat, current: Option<nat>, done: seq<Span>, r: CallResult)
    requires k + 1 < |toks| && toks[k].kind == Comma
    requires SplitsAtSeparators(toks, k + 1, SeparatorsFrom(toks, k + 1), None,
                                done + [Span(ArgumentStart(current, toks[k]), toks[k].start)], r)
    ensures SplitsAtSeparators(toks, k, SeparatorsFrom(toks, k), current, done, r)
  {
    var seps := SeparatorsFrom(toks, k);
    var rest := SeparatorsFrom(toks, k + 1);
    var done' := done + [Span(ArgumentStart(current, toks[k]), toks[k].start)];
    assert seps == [k] + rest;
    if r.Arguments? {
      assert r.args[..|done|] == r.args[..|done'|][..|done|];
      assert r.args[|done|] == done'[|done|];
      forall i | 0 < i < |seps|
        ensures r.args[|done| + i].end == toks[seps[i]].start
      {
        assert seps[i] == rest[i - 1] && |done| + i == |done'| + (i - 1);
      }
      forall i | 0 < i < |seps| - 1
        ensures r.args[|done| + i + 1].start == toks[seps[i] + 1].start
      {
        assert seps[i] == rest[i - 1] && |done| + i + 1 == |done'| + (i - 1) + 1;
      }
    }
  }

  /** A token that separates nothing becomes, or stays, the start of the argument being read. */
  lemma SplitsAfterOther(toks: seq<Token>, k: nat, current: Option<nat>, done: seq<Span>, r: CallResult)
    requires k + 1 < |toks| && !IsSeparator(toks[k])
    requires SplitsAtSeparators(toks, k + 1, SeparatorsFrom(toks, k + 1), Some(ArgumentStart(current, toks[k])), done, r)
    ensures SplitsAtSeparators(toks, k, SeparatorsFrom(toks, k), current, done, r)
  {
    assert SeparatorsFrom(toks, k) == SeparatorsFrom(toks, k + 1);
  }

  /** The token that ends the list closes the last argument when it is a parenthesis, and none when the text ends. */
  lemma SplitsAtLast(s: seq<char>, p: nat, current: Option<nat>, done: seq<Span>, toks: seq<Token>, k: nat)
    requires p <= |s| && |done| < MaxArguments
    requires k < |toks| && TopTokens(s, p) == toks[k..] && EndsList(NextToken(s, p).0)
    ensures SplitsAtSeparators(toks, k, SeparatorsFrom(toks, k), current, done, SplitArguments(s, p, current, done).0)
  {
    var (t, q) := NextToken(s, p);
    TopTokensLast(s, p, toks, k);
    assert SplitArguments(s, p, current, done).0 == SplitStep(s, t, q, current, done).result;
    if t.kind == CloseParen {
      assert (done + [Span(ArgumentStart(current, t), t.start)])[..|done|] == done;
    }
  }

  /** The argument loop closes one argument per top-level separator, from the first token after the previous one up to it. */
  lemma {:induction false} SplitArgumentsSeparators(s: seq<char>, p: nat, current: Option<nat>, done: seq<Span>, toks: seq<Token>, k: nat)
    requires p <= |s| && |done| <= MaxArguments
    requires k < |toks| && TopTokens(s, p) == toks[k..]
    ensures SplitsAtSeparators(toks, k, SeparatorsFrom(toks, k), current, done, SplitArguments(s, p, current, done).0)
    decreases |s| - p
  {
    if |done| < MaxArguments {
      var (t, q) := NextToken(s, p);
      if EndsList(t) {
        SplitsAtLast(s, p, current, done, toks, k);
      } else {
        var step := SplitStep(s, t, q, current, done);
        assert SplitArguments(s, p, current, done) == SplitArguments(s, step.at, step.current, step.done);
        TopTokensRest(s, p, toks, k);
        assert step.at == PastGroup(s, t, q);
        SplitArgumentsSeparators(s, step.at, step.current, step.done, toks, k + 1);
        if t.kind == Comma {
          SplitsAfterComma(toks, k, current, done, SplitArguments(s, p, current, done).0);
        } else {
          SplitsAfterOther(toks, k, current, done, SplitArguments(s, p, current, done).0);
        }
      }
    }
  }

  /**
   * How a call's argument list ends is decided by its top-level tokens after
   * the `(`: there are too many arguments when ten or more commas sit at top
   * level, the list is unterminated when the text ends first, and otherwise
   * it is closed by its top-level `)`.
   */
  lemma ParseCallOutcome(s: seq<char>, p: nat)
    requires p <= |s| && NextToken(s, p).0.kind == OpenParen
    ensures var toks := TopTokens(s, NextToken(s, p).1);
            var n := CommasFrom(toks, 0);
            var r := ParseCall(s, p).0;
            && (r == TooManyArguments <==> n >= MaxArguments)
            && (r == Unterminated <==> n < MaxArguments && toks[|toks| - 1].kind == EndOfStream)
            && (r.Arguments? <==> n < MaxArguments && toks[|toks| - 1].kind == CloseParen)
  {
    var (t, q) := NextToken(s, p);
    var toks := TopTokens(s, q);
    assert toks[0..] == toks;
    ParseCallUnfold(s, p, t, q);
    SplitArgumentsOutcome(s, q, None, [], toks, 0);
  }

  /**
   * The arguments args are delimited by the top-level tokens toks with
   * separators at seps: each runs from the token after the previous
   * separator (the first token, for the first argument) up to the next one.
   */
  predicate DelimitedBy(toks: seq<Token>, seps: seq<nat>, args: seq<Span>)
    requires |toks| >= 1 && seps == SeparatorsFrom(toks, 0)
  {
    && |args| == |seps|
    && (|args| > 0 ==> args[0].start == toks[0].start)
    && (forall i :: 0 <= i < |seps| ==> args[i].end == toks[seps[i]].start)
    && (forall i :: 0 <= i < |seps| - 1 ==> args[i + 1].start == toks[seps[i] + 1].start)
  }

  /** A split from the first top-level token with nothing closed yet is delimited by the separators. */
  lemma SplitsFromStart(toks: seq<Token>, seps: seq<nat>, args: seq<Span>)
    requires |toks| >= 1 && seps == SeparatorsFrom(toks, 0)
    requires SplitsAtSeparators(toks, 0, seps, None, [], Arguments(args))
    ensures DelimitedBy(toks, seps, args)
  {
  }

  /**
   * Each argument of a call runs from the token after the previous top-level
   * separator (the first token, for the first argument) up to the next
   * top-level comma or `)`; separators nested in parentheses or braces split
   * nothing.
   */
  lemma ParseCallTopLevel(s: seq<char>, p: nat)
    requires p <= |s| && NextToken(s, p).0.kind == OpenParen
    ensures var toks := TopTokens(s, NextToken(s, p).1);
            var r := ParseCall(s, p).0;
            r.Arguments? ==> DelimitedBy(toks, SeparatorsFrom(toks, 0), r.args)
  {
    var (t, q) := NextToken(s, p);
    var toks := TopTokens(s, q);
    assert toks[0..] == toks;
    ParseCallUnfold(s, p, t, q);
    SplitArgumentsSeparators(s, q, None, [], toks, 0);
    var r := ParseCall(s, p).0;
    if r.Arguments? {
      SplitsFromStart(toks, SeparatorsFrom(toks, 0), r.args);
    }
  }

  /** The token that ends the argument list is the last top-level token, and no comma. */
  lemma TopTokensLast(s: seq<char>, p: nat, toks: seq<Token>, k: nat)
    requires p <= |s| && k < |toks| && TopTokens(s, p) == toks[k..]
    requires EndsList(NextToken(s, p).0)
    ensures k == |toks| - 1 && toks[k] == NextToken(s, p).0 && CommasFrom(toks, k) == 0
    ensures SeparatorsFrom(toks, k) == if toks[k].kind == CloseParen then [k] else []
  {
    assert toks[k..] == [NextToken(s, p).0];
  }

  /** The argument loop ends as the commas and the last top-level token say. */
  lemma {:induction false} SplitArgumentsOutcome(s: seq<char>, p: nat, current: Option<nat>, done: seq<Span>, toks: seq<Token>, k: nat)
    requires p <= |s| && |done| <= MaxArguments
    requires k < |toks| && TopTokens(s, p) == toks[k..]
    ensures OutcomeByCommas(toks, k, done, SplitArguments(s, p, current, done).0)
    decreases |s| - p
  {
    if |done| < MaxArguments {
      var (t, q) := NextToken(s, p);
      if EndsList(t) {
        TopTokensLast(s, p, toks, k);
        assert SplitArguments(s, p, current, done).0 == SplitStep(s, t, q, current, done).result;
      } else {
        var step := SplitStep(s, t, q, current, done);
        assert SplitArguments(s, p, current, done) == SplitArguments(s, step.at, step.current, step.done);
        TopTokensRest(s, p, toks, k);
        assert step.at == PastGroup(s, t, q);
        assert |step.done| == |done| + if t.kind == Comma then 1 else 0;
        SplitArgumentsOutcome(s, step.at, step.current, step.done, toks, k + 1);
      }
    }
  }

  /** The two text channels and the two name buffers the preprocessor fills. */
  datatype Artifacts = Artifacts(
    states: seq<seq<char>>,       // `States`: accepted state names, "X" + name
    transitions: seq<seq<char>>,  // `Transitions`: accepted transition names
    out: seq<char>,               // standard output
    err: seq<char>)               // standard error

  const MissingParenthesesMessage: seq<char> := "Syntax error: Missing parentheses.\n"
  const StateCountMessage: seq<char> := "Syntax error: Incorrect number of arguments to newState.\n"
  const TransitionCountMessage: seq<char> := "Syntax error: Incorrect number of arguments to newTransition.\n"

  /** The output action stub printed for an accepted state. */
  function StateStub(name: seq<char>, action: seq<char>): seq<char> {
    "STATE_OUTPUT_FUNCTION(stateAction_" + name + ") " + action + "\n"
  }

  /** The condition stub printed for an accepted transition. */
  function TransitionStub(name: seq<char>, condition: seq<char>): seq<char> {
    "TRANSITION_CONDITION_FUNCTION(transitionCondition_" + name + ") { return (" + condition + "); }\n"
  }

  /** The acceptance switch at the end of parseFunction, including the missing-parenthesis branch. */
  function Record(s: seq<char>, kind: FunctionKind, result: CallResult, a: Artifacts): Artifacts {
    match result
    case MissingParentheses => a.(err := a.err + MissingParenthesesMessage)
    case Unterminated => a
    case TooManyArguments => a
    case Arguments(args) =>
      if kind == NewState then
        if |args| == StateArgumentCount then
          var name := "X" + Text(s, args[1]);
          a.(states := a.states + [name], out := a.out + StateStub(name, Text(s, args[2])))
        else
          a.(err := a.err + StateCountMessage)
      else
        if |args| == TransitionArgumentCount then
          var name := Text(s, args[1]);
          a.(transitions := a.transitions + [name], out := a.out + TransitionStub(name, Text(s, args[4])))
        else
          a.(err := a.err + TransitionCountMessage)
  }

  /** The token held in `PreviousToken` before the first token is read (all fields zero). */
  const NoToken: Token := Token(Unknown, 0, [])

  /** The call a token starts when the scan loop meets it after `previous`, if any. */
  function CallAt(previous: Token, t: Token): Option<FunctionKind> {
    if t.kind == Identifier && previous.text != "define" then
      if t.text == "newState" then Some(NewState)
      else if t.text == "newTransition" then Some(NewTransition)
      else None
    else None
  }

  /** Why a run stops without producing its artifacts. */
  datatype Abort = ArgumentArrayOverflow

  /** The scan loop of main, from cursor p, with the previous token and the artifacts so far. */
  function Scan(s: seq<char>, p: nat, previous: Token, a: Artifacts): Result<Artifacts, Abort>
    requires p <= |s|
    decreases |s| - p
  {
    var (t, q) := NextToken(s, p);
    if t.kind == EndOfStream then
      Success(a)
    else if CallAt(previous, t).Some? then
      var (result, q') := ParseCall(s, q);
      if result == TooManyArguments then Failure(ArgumentArrayOverflow)
      else Scan(s, q', t, Record(s, CallAt(previous, t).value, result, a))
    else
      Scan(s, q, t, a)
  }

  /** One token of the scan loop of main, read with the cursor moving from p to q. */
  lemma ScanUnfold(s: seq<char>, p: nat, t: Token, q: nat, previous: Token, a: Artifacts)
    requires p <= |s| && (t, q) == NextToken(s, p)
    ensures Scan(s, p, previous, a) ==
              if t.kind == EndOfStream then Success(a)
              else if CallAt(previous, t).None? then Scan(s, q, t, a)
              else if ParseCall(s, q).0 == TooManyArguments then Failure(ArgumentArrayOverflow)
              else Scan(s, ParseCall(s, q).1, t, Record(s, CallAt(previous, t).value, ParseCall(s, q).0, a))
  {
  }

  /** A recognised call: which macro, and what parsing its argument list gave. */
  datatype Call = Call(kind: FunctionKind, result: CallResult)

  /** The number of arguments a call of this kind must have. */
  function Arity(kind: FunctionKind): nat {
    if kind == NewState then StateArgumentCount else TransitionArgumentCount
  }

  /** A call that is recorded: a closed argument list of the right length. */
  predicate Accepted(c: Call) {
    c.result.Arguments? && |c.result.args| == Arity(c.kind)
  }

  /** The name an accepted call records (in `States` or `Transitions`). */
  function NameOf(s: seq<char>, c: Call): seq<char>
    requires Accepted(c)
  {
    if c.kind == NewState then "X" + Text(s, c.result.args[1]) else Text(s, c.result.args[1])
  }

  /** What a call appends to `States`. */
  function StateEntries(s: seq<char>, c: Call): seq<seq<char>> {
    if Accepted(c) && c.kind == NewState then [NameOf(s, c)] else []
  }

  /** What a call appends to `Transitions`. */
  function TransitionEntries(s: seq<char>, c: Call): seq<seq<char>> {
    if Accepted(c) && c.kind == NewTransition then [NameOf(s, c)] else []
  }

  /** What a call prints on standard output: the stub of an accepted call, else nothing. */
  function StubOf(s: seq<char>, c: Call): seq<char> {
    if !Accepted(c) then []
    else if c.kind == NewState then StateStub(NameOf(s, c), Text(s, c.result.args[2]))
    else TransitionStub(NameOf(s, c), Text(s, c.result.args[4]))
  }

  /** What a call prints on standard error. */
  function DiagnosticOf(c: Call): seq<char> {
    match c.result
    case MissingParentheses => MissingParenthesesMessage
    case Arguments(_) =>
      if Accepted(c) then []
      else if c.kind == NewState then StateCountMessage
      else TransitionCountMessage
    case _ => []
  }

  /**
   * parseFunction only ever appends, and to exactly the channels its
   * outcome calls for: the name and the stub of an accepted call, the
   * diagnostic of a rejected one.
   */
  lemma RecordAppends(s: seq<char>, c: Call, a: Artifacts)
    ensures Record(s, c.kind, c.result, a)
            == Artifacts(a.states + StateEntries(s, c), a.transitions + TransitionEntries(s, c),
                         a.out + StubOf(s, c), a.err + DiagnosticOf(c))
  {
    if c.result.Arguments? && c.kind == NewState && !Accepted(c) {
      assert a.states + [] == a.states && a.transitions + [] == a.transitions && a.out + [] == a.out;
    } else if c.result.Arguments? && c.kind == NewTransition && !Accepted(c) {
      assert a.states + [] == a.states && a.transitions + [] == a.transitions && a.out + [] == a.out;
    } else if c.result.Arguments? {
      assert a.err + [] == a.err;
      if c.kind == NewState {
        assert a.transitions + [] == a.transitions;
      } else {
        assert a.states + [] == a.states;
      }
    } else if c.result == MissingParentheses {
      assert a.states + [] == a.states && a.transitions + [] == a.transitions && a.out + [] == a.out;
    } else {
      assert a.states + [] == a.states && a.transitions + [] == a.transitions;
      assert a.out + [] == a.out && a.err + [] == a.err;
    }
  }

  /**
   * A call whose argument list was read to its end (or found missing) is
   * either accepted, and then prints its stub and records one name, or
   * rejected, and then prints one diagnostic and records nothing; a call cut
   * off by the end of the input leaves no trace.
   */
  lemma AcceptedOrDiagnosed(s: seq<char>, c: Call)
    ensures Accepted(c) <==> StubOf(s, c) != []
    ensures Accepted(c) <==> |StateEntries(s, c)| + |TransitionEntries(s, c)| == 1
    ensures (c.result.Arguments? || c.result == MissingParentheses) && !Accepted(c) <==> DiagnosticOf(c) != []
    ensures c.result == Unterminated ==>
              StubOf(s, c) == [] && DiagnosticOf(c) == [] && StateEntries(s, c) == [] && TransitionEntries(s, c) == []
  {
  }

  /**
   * The calls the scan loop of main recognises from cursor p, in order,
   * with what parsing each gave; a call that overflows the argument array
   * aborts the run.
   */
  function Calls(s: seq<char>, p: nat, previous: Token): Result<seq<Call>, Abort>
    requires p <= |s|
    decreases |s| - p
  {
    var (t, q) := NextToken(s, p);
    if t.kind == EndOfStream then
      Success([])
    else if CallAt(previous, t).Some? then
      var (result, q') := ParseCall(s, q);
      if result == TooManyArguments then Failure(ArgumentArrayOverflow)
      else
        match Calls(s, q', t)
        case Failure(e) => Failure(e)
        case Success(cs) => Success([Call(CallAt(previous, t).value, result)] + cs)
    else
      Calls(s, q, t)
  }

  function StateNames(s: seq<char>, cs: seq<Call>): seq<seq<char>> {
    if cs == [] then [] else StateEntries(s, cs[0]) + StateNames(s, cs[1..])
  }

  function TransitionNames(s: seq<char>, cs: seq<Call>): seq<seq<char>> {
    if cs == [] then [] else TransitionEntries(s, cs[0]) + TransitionNames(s, cs[1..])
  }

  function Stubs(s: seq<char>, cs: seq<Call>): seq<char> {
    if cs == [] then [] else StubOf(s, cs[0]) + Stubs(s, cs[1..])
  }

  function Diagnostics(cs: seq<Call>): seq<char> {
    if cs == [] then [] else DiagnosticOf(cs[0]) + Diagnostics(cs[1..])
  }

  /** The artifacts after recording the calls cs on top of a, in closed form. */
  function Collected(s: seq<char>, cs: seq<Call>, a: Artifacts): Artifacts {
    Artifacts(a.states + StateNames(s, cs), a.transitions + TransitionNames(s, cs),
              a.out + Stubs(s, cs), a.err + Diagnostics(cs))
  }

  function CollectedResult(s: seq<char>, r: Result<seq<Call>, Abort>, a: Artifacts): Result<Artifacts, Abort> {
    match r
    case Failure(e) => Failure(e)
    case Success(cs) => Success(Collected(s, cs, a))
  }

  lemma CollectedCons(s: seq<char>, c: Call, cs: seq<Call>, a: Artifacts)
    ensures Collected(s, [c] + cs, a) == Collected(s, cs, Record(s, c.kind, c.result, a))
  {
    RecordAppends(s, c, a);
    var b := Record(s, c.kind, c.result, a);
    var ccs := [c] + cs;
    assert ccs[0] == c && ccs[1..] == cs;
    assert StateNames(s, ccs) == StateEntries(s, c) + StateNames(s, cs);
    assert TransitionNames(s, ccs) == TransitionEntries(s, c) + TransitionNames(s, cs);
    assert Stubs(s, ccs) == StubOf(s, c) + Stubs(s, cs);
    assert Diagnostics(ccs) == DiagnosticOf(c) + Diagnostics(cs);
    AppendAssociates(a.states, StateEntries(s, c), StateNames(s, cs));
    AppendAssociates(a.transitions, TransitionEntries(s, c), TransitionNames(s, cs));
    AppendAssociates(a.out, StubOf(s, c), Stubs(s, cs));
    AppendAssociates(a.err, DiagnosticOf(c), Diagnostics(cs));
  }

  lemma AppendAssociates<T>(x: seq<T>, y: seq<T>, z: seq<T>)
    ensures x + (y + z) == (x + y) + z
  {
  }

  /**
   * The scan loop is recognition followed by recording: it appends, call by
   * call in source order, each accepted name, each stub and each diagnostic,
   * with no merging of repeated names, or aborts exactly when recognition
   * does.
   */
  lemma {:induction false} ScanCollects(s: seq<char>, p: nat, previous: Token, a: Artifacts)
    requires p <= |s|
    ensures Scan(s, p, previous, a) == CollectedResult(s, Calls(s, p, previous), a)
    decreases |s| - p
  {
    var (t, q) := NextToken(s, p);
    if t.kind == EndOfStream {
      assert Scan(s, p, previous, a) == Success(a);
      assert Calls(s, p, previous) == Success([]);
      assert Collected(s, [], a) == a;
    } else if CallAt(previous, t).Some? {
      var (result, q') := ParseCall(s, q);
      if result != TooManyArguments {
        var c := Call(CallAt(previous, t).value, result);
        var b := Record(s, c.kind, c.result, a);
        assert Scan(s, p, previous, a) == Scan(s, q', t, b);
        ScanCollects(s, q', t, b);
        match Calls(s, q', t)
        case Failure(e) =>
          assert Calls(s, p, previous) == Failure(e);
        case Success(cs) =>
          assert Calls(s, p, previous) == Success([c] + cs);
          CollectedCons(s, c, cs, a);
      }
    } else {
      assert Scan(s, p, previous, a) == Scan(s, q, t, a);
      assert Calls(s, p, previous) == Calls(s, q, t);
      ScanCollects(s, q, t, a);
    }
  }

  /**
   * An identifier right after a token whose text is `define` never starts a
   * call, whatever it says: the scan moves on as if it were any other token.
   */
  lemma DefineSuppressesCall(s: seq<char>, p: nat, previous: Token)
    requires p <= |s| && previous.text == "define"
    requires NextToken(s, p).0.kind != EndOfStream
    ensures Calls(s, p, previous) == Calls(s, NextToken(s, p).1, NextToken(s, p).0)
  {
  }

  /** `f()` has exactly one argument, and it is empty. */
  lemma EmptyArgumentList(s: seq<char>, p: nat)
    requires p <= |s| && NextToken(s, p).0.kind == OpenParen
    requires NextToken(s, NextToken(s, p).1).0.kind == CloseParen
    ensures var close := NextToken(s, NextToken(s, p).1).0;
            && ParseCall(s, p).0 == Arguments([Span(close.start, close.start)])
            && Text(s, ParseCall(s, p).0.args[0]) == []
  {
    var q := NextToken(s, p).1;
    var (t, q') := NextToken(s, q);
    assert [] + [Span(t.start, t.start)] == [Span(t.start, t.start)];
    assert SplitStep(s, t, q', None, []) == Stop(Arguments([Span(t.start, t.start)]), q');
    assert SplitArguments(s, q, None, []) == (Arguments([Span(t.start, t.start)]), q');
  }

  const Header: seq<char> := "#if defined(OUTPUTS_AND_CONDITIONS)\n\n"

  /** One line of an enumeration. */
  function EnumLine(prefix: seq<char>, name: seq<char>): seq<char> {
    "    " + prefix + name + ",\n"
  }

  /** The entries of one enumeration, one line per name, in order. */
  function EnumLines(prefix: seq<char>, names: seq<seq<char>>): seq<char> {
    if names == [] then []
    else EnumLines(prefix, names[..|names| - 1]) + EnumLine(prefix, names[|names| - 1])
  }

  const EnumOpening: seq<char> := "typedef enum {\n"
  const StateSentinel: seq<char> := "    StateCount\n} state_id;\n"
  const TransitionSentinel: seq<char> := "    TransitionCount\n} transition_id;\n"
  const Else: seq<char> := "\n#else\n\n"
  const EndIf: seq<char> := "\n#endif\n"

  /** One enumeration: its opening, its entries, and the count sentinel that closes it. */
  function EnumBlock(prefix: seq<char>, names: seq<seq<char>>, sentinel: seq<char>): seq<char> {
    EnumOpening + EnumLines(prefix, names) + sentinel
  }

  /** Everything main prints after the scan: the two enumerations, each closed by its count sentinel. */
  function Footer(states: seq<seq<char>>, transitions: seq<seq<char>>): seq<char> {
    Else + EnumBlock("State_", states, StateSentinel)
    + "\n" + EnumBlock("Transition_", transitions, TransitionSentinel) + EndIf
  }

  /** The whole preprocessor run on a source text: main from line 393 on. */
  function Preprocessed(s: seq<char>): Result<Artifacts, Abort> {
    match Scan(s, 0, NoToken, Artifacts([], [], Header, []))
    case Failure(e) => Failure(e)
    case Success(a) => Success(a.(out := a.out + Footer(a.states, a.transitions)))
  }

  /** An enumeration lists the names of a concatenation as the two lists one after the other. */
  lemma {:induction false} EnumLinesAppend(prefix: seq<char>, a: seq<seq<char>>, b: seq<seq<char>>)
    ensures EnumLines(prefix, a + b) == EnumLines(prefix, a) + EnumLines(prefix, b)
    decreases |b|
  {
    if b == [] {
      assert a + b == a;
    } else {
      var b', last := b[..|b| - 1], b[|b| - 1];
      assert (a + b)[..|a + b| - 1] == a + b' && (a + b)[|a + b| - 1] == last;
      assert EnumLines(prefix, a + b) == EnumLines(prefix, a + b') + EnumLine(prefix, last);
      EnumLinesAppend(prefix, a, b');
      AppendAssociates(EnumLines(prefix, a), EnumLines(prefix, b'), EnumLine(prefix, last));
    }
  }

  /**
   * The whole run in closed form: unless a call overflows the argument
   * array, standard output is the header, then the stub of every accepted
   * call in source order, then the two enumerations of the accepted names;
   * standard error is the diagnostics of the rejected calls in source order.
   */
  lemma PreprocessedClosedForm(s: seq<char>)
    ensures Calls(s, 0, NoToken).Failure? <==> Preprocessed(s).Failure?
    ensures Calls(s, 0, NoToken).Success? ==>
              var cs := Calls(s, 0, NoToken).value;
              var states := StateNames(s, cs);
              var transitions := TransitionNames(s, cs);
              Preprocessed(s) == Success(Artifacts(states, transitions,
                                                   Header + Stubs(s, cs) + Footer(states, transitions),
                                                   Diagnostics(cs)))
  {
    var a := Artifacts([], [], Header, []);
    ScanCollects(s, 0, NoToken, a);
    if Calls(s, 0, NoToken).Success? {
      var cs := Calls(s, 0, NoToken).value;
      assert [] + StateNames(s, cs) == StateNames(s, cs);
      assert [] + TransitionNames(s, cs) == TransitionNames(s, cs);
      assert [] + Diagnostics(cs) == Diagnostics(cs);
    }
  }
}
