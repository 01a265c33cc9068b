/**
 * parseFunction and the main routine of preprocessor.c as imperative code:
 * the preprocessor's four output buffers are fields that the methods append
 * to, parseFunction fills a ten-slot argument array in place, and main's
 * scan loop carries the previous token. Each method is proved against the
 * functions of module DeclParser.
 */
module PreprocessorImpl {
  import opened Common
  import opened Lexer
  import opened DeclParser
  import opened TokenizerImpl

  /** One slot of the C `Arguments` array: where the argument starts (None while that address is null) and ends. */
  datatype Argument = Argument(start: Option<nat>, end: nat)

  /** The span a slot describes; an unset start reads as 0. */
  function SpanOf(a: Argument): Span {
    Span(if a.start.Some? then a.start.value else 0, a.end)
  }

  /** The spans of the filled slots, in order. */
  function Spans(slots: seq<Argument>): (r: seq<Span>)
    ensures |r| == |slots|
    ensures forall i :: 0 <= i < |slots| ==> r[i] == SpanOf(slots[i])
  {
    if slots == [] then [] else Spans(slots[..|slots| - 1]) + [SpanOf(slots[|slots| - 1])]
  }

  class Preprocessor {
    /** The `States` buffer. */
    var states: seq<seq<char>>
    /** The `Transitions` buffer. */
    var transitions: seq<seq<char>>
    /** What has been printed on standard output. */
    var out: seq<char>
    /** What has been printed on standard error. */
    var err: seq<char>

    function Contents(): Artifacts
      reads this
    {
      Artifacts(states, transitions, out, err)
    }

    /** The program starts with both buffers empty and nothing printed. */
    constructor ()
      ensures Contents() == Artifacts([], [], [], [])
    {
      states, transitions, out, err := [], [], [], [];
    }

    /**
     * main, from the moment the source text is in memory: prints the header,
     * scans the text for calls, then prints the two enumerations. `ok` is
     * false when a call overflows the argument array, which ends the
     * program; otherwise the buffers and both channels are those of
     * Preprocessed.
     */
    method Run(source: seq<char>) returns (ok: bool)
      requires Contents() == Artifacts([], [], [], [])
      modifies this
      ensures ok <==> Preprocessed(source).Success?
      ensures ok ==> Contents() == Preprocessed(source).value
    {
      out := out + Header;
      assert Contents() == Artifacts([], [], Header, []);
      ok := ScanSource(source);
      if ok {
        EmitFooter();
      }
    }

    /** The end of main: the two enumerations of the recorded names. */
    method EmitFooter()
      modifies this
      ensures Contents() == old(Contents()).(out := old(out) + Footer(states, transitions))
    {
      ghost var start := out;
      ghost var first := EnumBlock("State_", states, StateSentinel);
      ghost var second := EnumBlock("Transition_", transitions, TransitionSentinel);
      out := out + Else;
      EmitEnum("State_", states, StateSentinel);
      out := out + "\n";
      EmitEnum("Transition_", transitions, TransitionSentinel);
      out := out + EndIf;
      AppendAssociates(start, Else, first);
      AppendAssociates(start, Else + first, "\n");
      AppendAssociates(start, Else + first + "\n", second);
      AppendAssociates(start, Else + first + "\n" + second, EndIf);
    }

    /** The scan loop of main, from the start of the source, with `PreviousToken` zeroed. */
    method ScanSource(source: seq<char>) returns (ok: bool)
      modifies this
      ensures ok <==> Scan(source, 0, NoToken, old(Contents())).Success?
      ensures ok ==> Contents() == Scan(source, 0, NoToken, old(Contents())).value
    {
      var tz := new Tokenizer(source);
      var previous := NoToken;
      while true
        invariant tz.Valid() && tz.src == source && fresh(tz)
        invariant Scan(source, tz.at, previous, Contents()) == Scan(source, 0, NoToken, old(Contents()))
        decreases |source| - tz.at
      {
        ghost var p := tz.at;
        var t := tz.GetToken();
        ScanUnfold(source, p, t, tz.at, previous, Contents());
        if t.kind == EndOfStream {
          return true;
        }
        var kind := CallKind(previous, t);
        if kind.Some? {
          var aborted := ParseFunction(tz, kind.value);
          if aborted {
            return false;
          }
        }
        previous := t;
      }
    }

    /** One of the two enumeration printing loops at the end of main. */
    method EmitEnum(prefix: seq<char>, names: seq<seq<char>>, sentinel: seq<char>)
      modifies this
      ensures Contents() == old(Contents()).(out := old(out) + EnumBlock(prefix, names, sentinel))
    {
      out := out + EnumOpening;
      for i := 0 to |names|
        invariant Contents() == old(Contents()).(out := old(out) + EnumOpening + EnumLines(prefix, names[..i]))
      {
        assert names[..i + 1][..i] == names[..i];
        ghost var before := out;
        out := out + "    " + prefix + names[i] + ",\n";
        AppendAssociates(before, "    " + prefix + names[i], ",\n");
        AppendAssociates(before, "    " + prefix, names[i]);
        AppendAssociates(before, "    ", prefix);
      }
      assert names[..|names|] == names;
      out := out + sentinel;
    }

    /**
     * parseFunction, called with the cursor just after the call name. It
     * reads the argument list as ParseCall does and records the call as
     * Record does; `aborted` reports the failed assertion on the argument
     * array, after which nothing more is promised.
     */
    method ParseFunction(tz: Tokenizer, kind: FunctionKind) returns (aborted: bool)
      requires tz.Valid()
      modifies this, tz
      ensures tz.Valid()
      ensures aborted <==> ParseCall(tz.src, old(tz.at)).0 == TooManyArguments
      ensures !aborted ==> tz.at == ParseCall(tz.src, old(tz.at)).1
      ensures !aborted ==> Contents() == Record(tz.src, kind, ParseCall(tz.src, old(tz.at)).0, old(Contents()))
    {
      ghost var p0 := tz.at;
      var t := tz.GetToken();
      ParseCallUnfold(tz.src, p0, t, tz.at);
      if t.kind != OpenParen {
        err := err + MissingParenthesesMessage;
        return false;
      }
      var slots := new Argument[MaxArguments](_ => Argument(None, 0));
      var count, result := ReadArguments(tz, slots);
      aborted := result.TooManyArguments?;
      if result.Arguments? {
        assert ParseCall(tz.src, p0) == (result, tz.at);
        Accept(tz.src, kind, slots, count, result.args);
      }
    }

    /** The switch at the end of parseFunction, once the argument list is closed. */
    method Accept(src: seq<char>, kind: FunctionKind, slots: array<Argument>, count: nat, ghost args: seq<Span>)
      requires count <= slots.Length && args == Spans(slots[..count]) && WellSplit(src, args, true)
      modifies this
      ensures Contents() == Record(src, kind, Arguments(args), old(Contents()))
    {
      WellSplitElements(src, args, true);
      if kind == NewState {
        if count == StateArgumentCount {
          AcceptState(src, SpanOf(slots[1]), SpanOf(slots[2]));
        } else {
          err := err + StateCountMessage;
        }
      } else {
        if count == TransitionArgumentCount {
          AcceptTransition(src, SpanOf(slots[1]), SpanOf(slots[4]));
        } else {
          err := err + TransitionCountMessage;
        }
      }
    }

    /** An accepted newState: formats "X" and the name into a fresh buffer, pushes it and prints the action stub. */
    method AcceptState(src: seq<char>, name: Span, action: Span)
      requires name.start <= name.end <= |src| && action.start <= action.end <= |src|
      modifies this
      ensures Contents() == old(Contents()).(states := old(states) + ["X" + Text(src, name)],
                                            out := old(out) + StateStub("X" + Text(src, name), Text(src, action)))
    {
      var buffer := FormatName("X", src, name);
      var formatted := buffer[..buffer.Length - 1];
      assert formatted == "X" + Text(src, name);
      states := states + [formatted];
      out := out + StateStub(formatted, src[action.start..action.end]);
    }

    /** An accepted newTransition: copies the name into a fresh buffer, pushes it and prints the condition stub. */
    method AcceptTransition(src: seq<char>, name: Span, condition: Span)
      requires name.start <= name.end <= |src| && condition.start <= condition.end <= |src|
      modifies this
      ensures Contents() == old(Contents()).(transitions := old(transitions) + [Text(src, name)],
                                            out := old(out) + TransitionStub(Text(src, name), Text(src, condition)))
    {
      var buffer := FormatName("", src, name);
      var formatted := buffer[..buffer.Length - 1];
      assert formatted == Text(src, name);
      transitions := transitions + [formatted];
      out := out + TransitionStub(formatted, src[condition.start..condition.end]);
    }

    /**
     * The argument loop of parseFunction, from just after the `(`: fills the
     * slots in place and says how the loop ended; for a closed list, the
     * first `count` slots hold the arguments.
     */
    method ReadArguments(tz: Tokenizer, slots: array<Argument>) returns (count: nat, result: CallResult)
      requires tz.Valid() && slots.Length == MaxArguments
      requires forall i :: 0 <= i < slots.Length ==> slots[i] == Argument(None, 0)
      modifies tz, slots
      ensures tz.Valid() && count <= MaxArguments && !result.MissingParentheses?
      ensures result.TooManyArguments? ==> SplitArguments(tz.src, old(tz.at), None, []).0 == TooManyArguments
      ensures !result.TooManyArguments? ==> (result, tz.at) == SplitArguments(tz.src, old(tz.at), None, [])
      ensures result.Arguments? ==> result.args == Spans(slots[..count])
    {
      ghost var q0 := tz.at;
      ghost var current: Option<nat> := None;
      ghost var done: seq<Span> := [];
      count := 0;
      var parsing := true;
      while parsing
        invariant tz.Valid() && Filled(slots, count, current, done)
        invariant parsing ==> SplitArguments(tz.src, tz.at, current, done) == SplitArguments(tz.src, q0, None, [])
        invariant !parsing ==> (Arguments(done), tz.at) == SplitArguments(tz.src, q0, None, [])
        decreases parsing, |tz.src| - tz.at
      {
        if count == MaxArguments {
          return count, TooManyArguments;
        }
        var t;
        t, count, current, done := ReadToken(tz, slots, count, current, done);
        if t.kind == EndOfStream {
          return count, Unterminated;
        } else if t.kind == CloseParen {
          parsing := false;
        }
      }
      assert Spans(slots[..count]) == done;
      result := Arguments(Spans(slots[..count]));
    }

    /**
     * One pass of the argument loop: reads a token, notes it as the start of
     * the current argument if none is noted yet, and closes the argument at a
     * top-level `,` or `)`; a nested group is skipped whole.
     */
    method ReadToken(tz: Tokenizer, slots: array<Argument>, count: nat, ghost current: Option<nat>, ghost done: seq<Span>)
      returns (t: Token, next: nat, ghost current': Option<nat>, ghost done': seq<Span>)
      requires tz.Valid() && count < MaxArguments && Filled(slots, count, current, done)
      modifies tz, slots
      ensures tz.Valid() && next <= MaxArguments && (old(tz.at) < tz.at || t.kind == EndOfStream)
      ensures t.kind != EndOfStream ==> Filled(slots, next, current', done')
      ensures t.kind == EndOfStream ==> (Unterminated, tz.at) == SplitArguments(tz.src, old(tz.at), current, done)
      ensures t.kind == CloseParen ==> (Arguments(done'), tz.at) == SplitArguments(tz.src, old(tz.at), current, done)
      ensures t.kind != EndOfStream && t.kind != CloseParen ==>
                SplitArguments(tz.src, tz.at, current', done') == SplitArguments(tz.src, old(tz.at), current, done)
    {
      ghost var p := tz.at;
      t := tz.GetToken();
      SplitArgumentsUnfold(tz.src, p, t, tz.at, current, done);
      if slots[count].start.None? {
        slots[count] := slots[count].(start := Some(t.start));
      }
      ghost var start := if current.Some? then current.value else t.start;
      assert slots[count].start == Some(start);
      next, current', done' := count, Some(start), done;
      if t.kind == Comma || t.kind == CloseParen {
        slots[count] := slots[count].(end := t.start);
        next, current', done' := count + 1, None, done + [Span(start, t.start)];
      } else if t.kind == OpenParen {
        tz.ParseParentheses();
      } else if t.kind == OpenBrace {
        tz.ParseBraces();
      }
    }
  }

  /**
   * The calloc and sprintf of a recorded name, with the allocation the
   * format needs: the prefix, the argument's characters and the NUL. Every
   * write lands inside the buffer, and the buffer holds the name followed by
   * its terminator.
   */
  method FormatName(prefix: seq<char>, src: seq<char>, a: Span) returns (buffer: array<char>)
    requires a.start <= a.end <= |src|
    ensures fresh(buffer) && buffer.Length == NameAllocation(prefix, a.end - a.start)
    ensures buffer[..] == prefix + src[a.start..a.end] + [NUL]
  {
    buffer := new char[NameAllocation(prefix, a.end - a.start)](_ => NUL);
    var length := a.end - a.start;
    for i := 0 to |prefix|
      invariant buffer[..i] == prefix[..i]
      invariant forall k :: i <= k < buffer.Length ==> buffer[k] == NUL
    {
      buffer[i] := prefix[i];
    }
    for i := 0 to length
      invariant buffer[..|prefix| + i] == prefix + src[a.start..a.start + i]
      invariant forall k :: |prefix| + i <= k < buffer.Length ==> buffer[k] == NUL
    {
      buffer[|prefix| + i] := src[a.start + i];
      assert src[a.start..a.start + i + 1] == src[a.start..a.start + i] + [src[a.start + i]];
    }
    assert buffer[..] == buffer[..|prefix| + length] + [buffer[|prefix| + length]];
  }

  /** The bytes a name needs: its prefix, the argument's characters and the terminating NUL. */
  function NameAllocation(prefix: seq<char>, length: nat): (r: nat)
    ensures r > |prefix| + length
  {
    |prefix| + length + 1
  }

  /** What parseFunction hands calloc for a name whose argument has `length` characters, for either kind. */
  function NameAllocationAsWritten(length: nat): nat {
    length + 1
  }

  /**
   * As written, the state name's terminating NUL goes one byte past its
   * buffer: sprintf stores the "X", the argument and the NUL.
   */
  lemma StateNameOverflowsAsWritten(length: nat)
    ensures NameAllocationAsWritten(length) < NameAllocation("X", length)
    ensures |"X"| + length == NameAllocationAsWritten(length)
  {
  }

  /** The transition name, which has no prefix, fits the allocation as written. */
  lemma TransitionNameFitsAsWritten(length: nat)
    ensures NameAllocationAsWritten(length) == NameAllocation("", length)
  {
  }

  /**
   * Every recorded newState call overflows its name buffer as written: the
   * name and its NUL need one byte more than calloc is given. A recorded
   * newTransition name and its NUL fill the buffer exactly.
   */
  lemma RecordedNameAllocationAsWritten(s: seq<char>, c: Call)
    requires Accepted(c)
    ensures var length := |Text(s, c.result.args[1])|;
            c.kind == NewState <==> NameAllocationAsWritten(length) < |NameOf(s, c) + [NUL]|
    ensures var length := |Text(s, c.result.args[1])|;
            c.kind == NewTransition <==> NameAllocationAsWritten(length) == |NameOf(s, c) + [NUL]|
  {
  }

  /** A state named `one` is given four bytes, and sprintf stores the five of "Xone" and its NUL. */
  lemma StateNameOverflowExample()
    ensures var a := Span(0, 3);
            && NameAllocationAsWritten(a.end - a.start) == 4
            && |"X" + Text("one", a) + [NUL]| == 5
  {
  }

  /** The test main applies to an identifier: a call unless the previous token reads `define`. */
  method CallKind(previous: Token, t: Token) returns (kind: Option<FunctionKind>)
    ensures kind == CallAt(previous, t)
  {
    kind := None;
    if t.kind == Identifier {
      var afterDefine := TokenEquals(previous, "define");
      if !afterDefine {
        var isState := TokenEquals(t, "newState");
        var isTransition := TokenEquals(t, "newTransition");
        kind := if isState then Some(NewState) else if isTransition then Some(NewTransition) else None;
      }
    }
  }

  /**
   * The argument array as the loop keeps it: the first `count` slots hold
   * the closed arguments, the next one the start of the argument being
   * read, and the rest are still zero.
   */
  ghost predicate Filled(slots: array<Argument>, count: nat, current: Option<nat>, done: seq<Span>)
    reads slots
  {
    && slots.Length == MaxArguments && count == |done| <= MaxArguments
    && (forall i :: 0 <= i < count ==> SpanOf(slots[i]) == done[i])
    && (forall i :: count < i < MaxArguments ==> slots[i] == Argument(None, 0))
    && (count < MaxArguments ==> slots[count].start == current)
  }
}
