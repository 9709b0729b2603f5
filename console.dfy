/** The terminal as the services see it: a finite sequence of lines read one
    at a time with Scanner.nextLine, and the two shapes of retry loop that
    every field reader of the services follows. */
module Console {
  import opened Chars
  import opened JavaInt

  /** The exceptions that leave a field reader uncaught. */
  datatype Failure =
    | NumberFormat   // NumberFormatException under a catch for InputMismatchException
    | NullPointer    // a null Integer unboxed into an int

  /** An accepted value and the index of the first unread line. */
  datatype Read<T> = Read(value: T, next: nat)

  /** How a read from the terminal ends. `Exhausted` is nextLine's
      NoSuchElementException: the input ran out before a value was accepted. */
  datatype Outcome<T> =
    | Accepted(value: T, next: nat)
    | Escaped(failure: Failure)
    | Exhausted
  {
    predicate IsFailure()
    {
      !Accepted?
    }

    function PropagateFailure<U>(): Outcome<U>
      requires IsFailure()
    {
      if Escaped? then Escaped(failure) else Exhausted
    }

    function Extract(): Read<T>
      requires !IsFailure()
    {
      Read(value, next)
    }
  }

  /** Scanner.nextLine where the caller throws the line away. */
  function Discard(lines: seq<string>, pos: nat): (r: Outcome<()>)
    ensures r.Accepted? <==> pos < |lines|
    ensures r.Accepted? ==> r.next == pos + 1
  {
    if pos < |lines| then Accepted((), pos + 1) else Exhausted
  }

  // --------------------------------------------------------- text fields

  /** The loop `do { x = nextLine() } while (!ok(x))`, with `check` saying
      whether a line is accepted and, if so, which value the reader returns. */
  function FirstDecided<T>(lines: seq<string>, pos: nat, check: string -> Option<T>): (r: Outcome<T>)
    ensures !r.Escaped?
    ensures r.Accepted? ==> pos < r.next <= |lines| && check(lines[r.next - 1]) == Some(r.value)
    decreases |lines| - pos
  {
    if pos >= |lines| then Exhausted
    else match check(lines[pos])
      case Some(v) => Accepted(v, pos + 1)
      case None => FirstDecided(lines, pos + 1, check)
  }

  /** The accepted line is the first acceptable one from `pos` on, and the
      reader is exhausted exactly when no line from `pos` on is acceptable. */
  lemma {:induction false} FirstDecidedIsFirst<T>(lines: seq<string>, pos: nat, check: string -> Option<T>)
    ensures FirstDecided(lines, pos, check).Accepted? ==>
      forall j :: pos <= j < FirstDecided(lines, pos, check).next - 1 ==> check(lines[j]).None?
    ensures FirstDecided(lines, pos, check).Exhausted? <==>
      forall j :: pos <= j < |lines| ==> check(lines[j]).None?
    decreases |lines| - pos
  {
    if pos < |lines| && check(lines[pos]).None? {
      FirstDecidedIsFirst(lines, pos + 1, check);
    }
  }

  /** A line the test accepts is taken at once. */
  lemma FirstDecidedHere<T>(lines: seq<string>, pos: nat, check: string -> Option<T>, v: T)
    requires pos < |lines| && check(lines[pos]) == Some(v)
    ensures FirstDecided(lines, pos, check) == Accepted(v, pos + 1)
  {
  }

  /** The text-field loop over the terminal. */
  method ReadUntil<T>(lines: seq<string>, pos: nat, check: string -> Option<T>) returns (r: Outcome<T>)
    ensures r == FirstDecided(lines, pos, check)
  {
    var i := pos;
    while i < |lines|
      invariant pos <= i
      invariant FirstDecided(lines, i, check) == FirstDecided(lines, pos, check)
      decreases |lines| - i
    {
      var c := check(lines[i]);
      if c.Some? {
        return Accepted(c.value, i + 1);
      }
      i := i + 1;
    }
    return Exhausted;
  }

  // ------------------------------------------------------ integer fields

  /** What an empty line does: re-prompt, or return the loop's variable as
      it stands (`if (entrada.isEmpty()) return id;`). */
  datatype OnEmpty = Reprompt | ReturnCurrent

  /** What a line that is not a number does: re-prompt, re-prompt after one
      more nextLine in the catch block, or escape the loop because the catch
      is for another exception. */
  datatype OnBadNumber = Retry | RetryAfterDiscard | Propagate

  /** An integer reader: the accepted range [min, max] (no upper bound when
      `max` is None) and its two quirks. */
  datatype IntRule = IntRule(min: int, max: Option<int>, onEmpty: OnEmpty, onBadNumber: OnBadNumber)

  predicate InRange(rule: IntRule, v: int)
  {
    rule.min <= v && (rule.max.None? || v <= rule.max.value)
  }

  /** The integer loop from line `pos` on, with `cur` the value of its
      variable (None: an Integer still null). A parsed number is stored in
      the variable even when it is out of range. */
  function IntRun(rule: IntRule, lines: seq<string>, pos: nat, cur: Option<int>): (r: Outcome<Option<int>>)
    ensures r.Accepted? ==> pos < r.next <= |lines|
    ensures r.Escaped? ==> rule.onBadNumber == Propagate && r.failure == NumberFormat
    ensures r.Accepted? && rule.onEmpty == Reprompt ==>
      r.value.Some? && InRange(rule, r.value.value) && ParseInt(lines[r.next - 1]) == r.value
    ensures r.Accepted? && !(r.value.Some? && InRange(rule, r.value.value)) ==>
      rule.onEmpty == ReturnCurrent && lines[r.next - 1] == ""
    ensures r.Accepted? && cur.Some? ==> r.value.Some?
    ensures r.Accepted? && r.value.Some? && (cur.Some? ==> IsInt32(cur.value)) ==> IsInt32(r.value.value)
    decreases |lines| - pos
  {
    if pos >= |lines| then Exhausted
    else if lines[pos] == "" then
      if rule.onEmpty == ReturnCurrent then Accepted(cur, pos + 1)
      else IntRun(rule, lines, pos + 1, cur)
    else match ParseInt(lines[pos])
      case None =>
        (match rule.onBadNumber
         case Propagate => Escaped(NumberFormat)
         case Retry => IntRun(rule, lines, pos + 1, cur)
         case RetryAfterDiscard =>
           if pos + 1 >= |lines| then Exhausted else IntRun(rule, lines, pos + 2, cur))
      case Some(v) =>
        if InRange(rule, v) then Accepted(Some(v), pos + 1)
        else IntRun(rule, lines, pos + 1, Some(v))
  }

  /** The integer loop over the terminal. */
  method ReadInt(rule: IntRule, lines: seq<string>, pos: nat, init: Option<int>) returns (r: Outcome<Option<int>>)
    ensures r == IntRun(rule, lines, pos, init)
  {
    var i := pos;
    var cur := init;
    while i < |lines|
      invariant IntRun(rule, lines, i, cur) == IntRun(rule, lines, pos, init)
      decreases |lines| - i
    {
      var line := lines[i];
      if line == "" {
        if rule.onEmpty == ReturnCurrent {
          return Accepted(cur, i + 1);
        }
        i := i + 1;
      } else {
        var parsed := ParseInt(line);
        if parsed.None? {
          if rule.onBadNumber == Propagate {
            return Escaped(NumberFormat);
          } else if rule.onBadNumber == Retry {
            i := i + 1;
          } else {
            if i + 1 >= |lines| {
              return Exhausted;
            }
            i := i + 2;
          }
        } else {
          cur := parsed;
          if InRange(rule, parsed.value) {
            return Accepted(cur, i + 1);
          }
          i := i + 1;
        }
      }
    }
    return Exhausted;
  }

  /** A line holding the decimal form of an in-range number is accepted
      at once, whatever the loop's variable holds. */
  lemma IntRunAccepts(rule: IntRule, lines: seq<string>, pos: nat, cur: Option<int>, n: int)
    requires pos < |lines| && lines[pos] == IntToString(n) && IsInt32(n) && InRange(rule, n)
    ensures IntRun(rule, lines, pos, cur) == Accepted(Some(n), pos + 1)
  {
    ParseIntToString(n);
  }

  /** The answer that leaves an optional id at `v`: an empty line for the
      initial 0, the number otherwise. */
  function OptionalAnswer(v: int): string
  {
    if v == 0 then "" else IntToString(v)
  }

  /** A reader that returns its variable on an empty line reads back any
      id entered as OptionalAnswer. */
  lemma OptionalAnswerRead(rule: IntRule, lines: seq<string>, pos: nat, v: int)
    requires rule.onEmpty == ReturnCurrent
    requires pos < |lines| && lines[pos] == OptionalAnswer(v)
    requires v == 0 || (InRange(rule, v) && IsInt32(v))
    ensures IntRun(rule, lines, pos, Some(0)) == Accepted(Some(v), pos + 1)
  {
    if v != 0 {
      IntRunAccepts(rule, lines, pos, Some(0), v);
    }
  }

  /** Java auto-unboxing of the reader's result into an `int`. */
  function Unbox(o: Outcome<Option<int>>): (r: Outcome<int>)
    ensures r.Accepted? <==> o.Accepted? && o.value.Some?
    ensures r.Accepted? ==> r.value == o.value.value && r.next == o.next
    ensures o.Accepted? && o.value.None? ==> r == Escaped(NullPointer)
    ensures o.Escaped? ==> r == o.PropagateFailure()
    ensures r.Exhausted? <==> o.Exhausted?
  {
    match o
    case Accepted(v, n) => if v.Some? then Accepted(v.value, n) else Escaped(NullPointer)
    case Escaped(f) => Escaped(f)
    case Exhausted => Exhausted
  }

  /** An int field (initialised to 0) never fails to unbox. */
  lemma IntFieldNeverNull(rule: IntRule, lines: seq<string>, pos: nat)
    ensures Unbox(IntRun(rule, lines, pos, Some(0))) != Escaped(NullPointer)
  {
  }

  /** The line the loop parses after line `j` when line `j` did not end it:
      the next one, or the one after it when the catch of a non-number
      throws the following line away with an extra nextLine. */
  function NextRead(rule: IntRule, lines: seq<string>, j: nat): (n: nat)
    requires j < |lines|
    ensures j < n <= j + 2
  {
    if rule.onBadNumber == RetryAfterDiscard && lines[j] != "" && ParseInt(lines[j]).None? then j + 2 else j + 1
  }

  /** `k` is a line the loop parses when it starts at `pos`: `pos` itself, or
      a line reached from it by NextRead steps. */
  predicate Parsed(rule: IntRule, lines: seq<string>, pos: nat, k: int)
    decreases k - pos
  {
    pos == k || (pos < k && pos < |lines| && Parsed(rule, lines, NextRead(rule, lines, pos), k))
  }

  /** A line that ends an integer reader: a number in range, or an empty line
      when the reader returns its variable on one. */
  predicate Stops(rule: IntRule, s: string)
  {
    Acceptable(rule, s) || (rule.onEmpty == ReturnCurrent && s == "")
  }

  /** `k` is the first line parsed from `pos` that ends the reader. */
  predicate FirstStop(rule: IntRule, lines: seq<string>, pos: nat, k: int)
  {
    && pos <= k < |lines| && Parsed(rule, lines, pos, k) && Stops(rule, lines[k])
    && forall j :: pos <= j < k && Parsed(rule, lines, pos, j) ==> !Stops(rule, lines[j])
  }

  /** No line parsed from `pos` ends the reader. */
  predicate NoStop(rule: IntRule, lines: seq<string>, pos: nat)
  {
    forall j :: pos <= j < |lines| && Parsed(rule, lines, pos, j) ==> !Stops(rule, lines[j])
  }

  /** `v` is what the loop variable holds on reaching line `k` from `pos`:
      the number on the last parsed line before `k`, or `cur` when no parsed
      line before `k` holds a number. */
  predicate HeldAt(rule: IntRule, lines: seq<string>, pos: nat, k: int, cur: Option<int>, v: Option<int>)
  {
    || (v == cur && forall j :: pos <= j < k <= |lines| && Parsed(rule, lines, pos, j) ==> ParseInt(lines[j]).None?)
    || (exists j :: pos <= j < k <= |lines| && Parsed(rule, lines, pos, j) && v.Some? && ParseInt(lines[j]) == v
          && forall i :: j < i < k && Parsed(rule, lines, pos, i) ==> ParseInt(lines[i]).None?)
  }

  /** The loop variable after a line that did not end the loop. */
  function Carried(s: string, cur: Option<int>): Option<int>
  {
    if ParseInt(s).Some? then ParseInt(s) else cur
  }

  /** Past `pos`, the parsed lines are those parsed from the next read. */
  lemma ParsedStep(rule: IntRule, lines: seq<string>, pos: nat)
    requires pos < |lines|
    ensures forall k :: pos < k ==>
      (Parsed(rule, lines, pos, k) <==> Parsed(rule, lines, NextRead(rule, lines, pos), k))
    ensures forall k :: Parsed(rule, lines, NextRead(rule, lines, pos), k) ==> NextRead(rule, lines, pos) <= k
  {
  }

  /** A line that does not end the loop hands it on to the next read
      unchanged but for the loop variable. */
  lemma IntRunStep(rule: IntRule, lines: seq<string>, pos: nat, cur: Option<int>)
    requires pos < |lines| && !Stops(rule, lines[pos])
    requires !(rule.onBadNumber == Propagate && lines[pos] != "" && ParseInt(lines[pos]).None?)
    ensures IntRun(rule, lines, pos, cur)
              == IntRun(rule, lines, NextRead(rule, lines, pos), Carried(lines[pos], cur))
  {
  }

  /** Any integer reader that catches NumberFormatException, with or without
      the extra nextLine: it ends on the first parsed line that stops it,
      returning the number typed there, it runs out of input exactly when no
      parsed line stops it, and it never escapes. */
  lemma {:induction false} ParsedReader(rule: IntRule, lines: seq<string>, pos: nat, cur: Option<int>)
    requires rule.onBadNumber != Propagate
    ensures var r := IntRun(rule, lines, pos, cur);
      && !r.Escaped?
      && (r.Accepted? ==> FirstStop(rule, lines, pos, r.next - 1))
      && (r.Accepted? && lines[r.next - 1] != "" ==> r.value == ParseInt(lines[r.next - 1]))
      && (r.Exhausted? <==> NoStop(rule, lines, pos))
    decreases |lines| - pos
  {
    if pos < |lines| && !Stops(rule, lines[pos]) {
      var n := NextRead(rule, lines, pos);
      IntRunStep(rule, lines, pos, cur);
      ParsedReader(rule, lines, n, Carried(lines[pos], cur));
      ParsedStep(rule, lines, pos);
    }
  }

  /** Conversely, the first parsed line that stops the reader is the line it
      ends on. */
  lemma FirstStopDecides(rule: IntRule, lines: seq<string>, pos: nat, cur: Option<int>, k: int)
    requires rule.onBadNumber != Propagate
    requires FirstStop(rule, lines, pos, k)
    ensures var r := IntRun(rule, lines, pos, cur); r.Accepted? && r.next == k + 1
  {
    ParsedReader(rule, lines, pos, cur);
  }

  /** The value an integer reader returns on an empty line is its variable:
      the number on the last parsed line before it (in range or not), or the
      initial value when no parsed line before it holds a number. */
  lemma {:induction false} IntRunValue(rule: IntRule, lines: seq<string>, pos: nat, cur: Option<int>)
    ensures var r := IntRun(rule, lines, pos, cur);
      r.Accepted? && lines[r.next - 1] == "" ==> HeldAt(rule, lines, pos, r.next - 1, cur, r.value)
    decreases |lines| - pos
  {
    if pos < |lines| && !Stops(rule, lines[pos])
       && !(rule.onBadNumber == Propagate && lines[pos] != "" && ParseInt(lines[pos]).None?)
    {
      var n := NextRead(rule, lines, pos);
      IntRunStep(rule, lines, pos, cur);
      IntRunValue(rule, lines, n, Carried(lines[pos], cur));
      var r := IntRun(rule, lines, n, Carried(lines[pos], cur));
      if r.Accepted? && lines[r.next - 1] == "" {
        HeldStep(rule, lines, pos, r.next - 1, cur, r.value);
      }
    }
  }

  /** HeldAt from the next read gives HeldAt from `pos`. */
  lemma HeldStep(rule: IntRule, lines: seq<string>, pos: nat, k: int, cur: Option<int>, v: Option<int>)
    requires pos < k <= |lines|
    requires HeldAt(rule, lines, NextRead(rule, lines, pos), k, Carried(lines[pos], cur), v)
    ensures HeldAt(rule, lines, pos, k, cur, v)
  {
    var n := NextRead(rule, lines, pos);
    ParsedStep(rule, lines, pos);
    if exists j :: n <= j < k <= |lines| && Parsed(rule, lines, n, j) && v.Some? && ParseInt(lines[j]) == v
                   && forall i :: j < i < k && Parsed(rule, lines, n, i) ==> ParseInt(lines[i]).None?
    {
      var j :| n <= j < k <= |lines| && Parsed(rule, lines, n, j) && v.Some? && ParseInt(lines[j]) == v
               && forall i :: j < i < k && Parsed(rule, lines, n, i) ==> ParseInt(lines[i]).None?;
      assert Parsed(rule, lines, pos, j);
    } else if ParseInt(lines[pos]).Some? {
      forall i | pos < i < k && Parsed(rule, lines, pos, i) ensures ParseInt(lines[i]).None? {
        assert Parsed(rule, lines, n, i);
      }
      assert Parsed(rule, lines, pos, pos);
    }
  }

  /** The line test of a reader whose every line decides on its own: an
      in-range number accepts it, a non-number under a wrong catch escapes
      (Some(None)), and anything else is re-prompted. */
  function LineDecision(rule: IntRule, s: string): Option<Option<int>>
  {
    if s == "" then None
    else match ParseInt(s)
      case None => if rule.onBadNumber == Propagate then Some(None) else None
      case Some(v) => if InRange(rule, v) then Some(Some(v)) else None
  }

  function LineDecisionOf(rule: IntRule): string -> Option<Option<int>>
  {
    s => LineDecision(rule, s)
  }

  function Decide(o: Outcome<Option<int>>): Outcome<Option<int>>
  {
    match o
    case Accepted(v, n) => if v.Some? then Accepted(v, n) else Escaped(NumberFormat)
    case Escaped(f) => Escaped(f)
    case Exhausted => Exhausted
  }

  /** A reader that re-prompts on an empty line and discards no extra line
      is a text-field loop over LineDecision: it stops at the first line that
      is an in-range number or (under a wrong catch) not a number at all. */
  lemma {:induction false} IntRunIsFirstDecided(rule: IntRule, lines: seq<string>, pos: nat, cur: Option<int>)
    requires rule.onEmpty == Reprompt && rule.onBadNumber != RetryAfterDiscard
    ensures IntRun(rule, lines, pos, cur) == Decide(FirstDecided(lines, pos, LineDecisionOf(rule)))
    decreases |lines| - pos
  {
    if pos < |lines| {
      var s := lines[pos];
      if s != "" && ParseInt(s).Some? && !InRange(rule, ParseInt(s).value) {
        IntRunIsFirstDecided(rule, lines, pos + 1, ParseInt(s));
      } else if LineDecision(rule, s).None? {
        IntRunIsFirstDecided(rule, lines, pos + 1, cur);
      }
    }
  }

  /** Under Reprompt the variable's value never reaches the result. */
  lemma {:induction false} IntRunIgnoresCurrent(rule: IntRule, lines: seq<string>, pos: nat, a: Option<int>, b: Option<int>)
    requires rule.onEmpty == Reprompt
    ensures IntRun(rule, lines, pos, a) == IntRun(rule, lines, pos, b)
    decreases |lines| - pos
  {
    if pos < |lines| {
      var s := lines[pos];
      if s == "" {
        IntRunIgnoresCurrent(rule, lines, pos + 1, a, b);
      } else if ParseInt(s).None? {
        if rule.onBadNumber == Retry {
          IntRunIgnoresCurrent(rule, lines, pos + 1, a, b);
        } else if rule.onBadNumber == RetryAfterDiscard && pos + 1 < |lines| {
          IntRunIgnoresCurrent(rule, lines, pos + 2, a, b);
        }
      }
    }
  }

  /** A line an integer reader accepts: a number in its range. */
  predicate Acceptable(rule: IntRule, s: string)
  {
    s != "" && ParseInt(s).Some? && InRange(rule, ParseInt(s).value)
  }

  /** A line a reader re-prompts on whatever its catch: empty, or a number
      out of range. */
  predicate Skippable(rule: IntRule, s: string)
  {
    s == "" || (ParseInt(s).Some? && !InRange(rule, ParseInt(s).value))
  }

  /** A mandatory reader that catches NumberFormatException (edad, dorsal,
      experiencia, rendimiento): it accepts the first in-range number, every
      other line costs one re-prompt, and it never escapes. */
  lemma RetryReader(rule: IntRule, lines: seq<string>, pos: nat, cur: Option<int>)
    requires rule.onEmpty == Reprompt && rule.onBadNumber == Retry
    ensures var r := IntRun(rule, lines, pos, cur);
      && !r.Escaped?
      && (r.Accepted? ==> Acceptable(rule, lines[r.next - 1]) && r.value == ParseInt(lines[r.next - 1])
                          && forall j :: pos <= j < r.next - 1 ==> !Acceptable(rule, lines[j]))
      && (r.Exhausted? <==> forall j :: pos <= j < |lines| ==> !Acceptable(rule, lines[j]))
  {
    IntRunIsFirstDecided(rule, lines, pos, cur);
    RetryDecided(rule, lines, pos);
  }

  lemma RetryDecided(rule: IntRule, lines: seq<string>, pos: nat)
    requires rule.onBadNumber == Retry
    ensures var r := Decide(FirstDecided(lines, pos, LineDecisionOf(rule)));
      && !r.Escaped?
      && (r.Accepted? ==> Acceptable(rule, lines[r.next - 1]) && r.value == ParseInt(lines[r.next - 1])
                          && forall j :: pos <= j < r.next - 1 ==> !Acceptable(rule, lines[j]))
      && (r.Exhausted? <==> forall j :: pos <= j < |lines| ==> !Acceptable(rule, lines[j]))
  {
    var check := LineDecisionOf(rule);
    FirstDecidedIsFirst(lines, pos, check);
    forall j | pos <= j < |lines|
      ensures check(lines[j]).Some? <==> Acceptable(rule, lines[j])
      ensures check(lines[j]).Some? ==> check(lines[j]).value == ParseInt(lines[j]) && check(lines[j]).value.Some?
    {
      LineDecisionMeans(rule, lines[j]);
    }
  }

  /** A mandatory id reader whose catch is for InputMismatchException
      (validarId, verificarIdEntrenador of GestionJugadora): empty lines and
      out-of-range numbers re-prompt; the first other line decides: an
      in-range number is accepted and a non-number escapes. */
  lemma WrongCatchReader(rule: IntRule, lines: seq<string>, pos: nat, cur: Option<int>)
    requires rule.onEmpty == Reprompt && rule.onBadNumber == Propagate
    ensures var r := IntRun(rule, lines, pos, cur);
      && (r.Accepted? ==> Acceptable(rule, lines[r.next - 1]) && r.value == ParseInt(lines[r.next - 1])
                          && forall j :: pos <= j < r.next - 1 ==> Skippable(rule, lines[j]))
      && (r.Escaped? <==> exists j :: pos <= j < |lines| && lines[j] != "" && ParseInt(lines[j]).None?
                                 && forall i :: pos <= i < j ==> Skippable(rule, lines[i]))
      && (r.Exhausted? <==> forall j :: pos <= j < |lines| ==> Skippable(rule, lines[j]))
  {
    IntRunIsFirstDecided(rule, lines, pos, cur);
    DecideFirst(rule, lines, pos);
  }

  lemma DecideFirst(rule: IntRule, lines: seq<string>, pos: nat)
    requires rule.onBadNumber == Propagate
    ensures var r := Decide(FirstDecided(lines, pos, LineDecisionOf(rule)));
      && (r.Accepted? ==> Acceptable(rule, lines[r.next - 1]) && r.value == ParseInt(lines[r.next - 1])
                          && forall j :: pos <= j < r.next - 1 ==> Skippable(rule, lines[j]))
      && (r.Escaped? <==> exists j :: pos <= j < |lines| && lines[j] != "" && ParseInt(lines[j]).None?
                                 && forall i :: pos <= i < j ==> Skippable(rule, lines[i]))
      && (r.Exhausted? <==> forall j :: pos <= j < |lines| ==> Skippable(rule, lines[j]))
  {
    DecideAccepted(rule, lines, pos);
    DecideEscaped(rule, lines, pos);
    DecideExhausted(rule, lines, pos);
  }

  lemma DecideAccepted(rule: IntRule, lines: seq<string>, pos: nat)
    requires rule.onBadNumber == Propagate
    ensures var r := Decide(FirstDecided(lines, pos, LineDecisionOf(rule)));
      r.Accepted? ==> Acceptable(rule, lines[r.next - 1]) && r.value == ParseInt(lines[r.next - 1])
                      && forall j :: pos <= j < r.next - 1 ==> Skippable(rule, lines[j])
  {
    var check := LineDecisionOf(rule);
    var d := FirstDecided(lines, pos, check);
    if d.Accepted? && d.value.Some? {
      FirstDecidedIsFirst(lines, pos, check);
      LineDecisionMeans(rule, lines[d.next - 1]);
      forall j | pos <= j < d.next - 1 ensures Skippable(rule, lines[j]) {
        LineDecisionMeans(rule, lines[j]);
      }
    }
  }

  lemma DecideExhausted(rule: IntRule, lines: seq<string>, pos: nat)
    requires rule.onBadNumber == Propagate
    ensures var r := Decide(FirstDecided(lines, pos, LineDecisionOf(rule)));
      r.Exhausted? <==> forall j :: pos <= j < |lines| ==> Skippable(rule, lines[j])
  {
    var check := LineDecisionOf(rule);
    FirstDecidedIsFirst(lines, pos, check);
    forall j | pos <= j < |lines| ensures check(lines[j]).None? <==> Skippable(rule, lines[j]) {
      LineDecisionMeans(rule, lines[j]);
    }
  }

  /** What LineDecision says about one line. */
  lemma LineDecisionMeans(rule: IntRule, s: string)
    ensures LineDecisionOf(rule)(s).Some? && LineDecisionOf(rule)(s).value.Some? <==> Acceptable(rule, s)
    ensures LineDecisionOf(rule)(s).Some? && LineDecisionOf(rule)(s).value.Some? ==>
      ParseInt(s) == LineDecisionOf(rule)(s).value
    ensures rule.onBadNumber != Propagate ==> (LineDecisionOf(rule)(s).Some? <==> Acceptable(rule, s))
    ensures rule.onBadNumber == Propagate ==> (LineDecisionOf(rule)(s).None? <==> Skippable(rule, s))
    ensures rule.onBadNumber == Propagate ==>
      (LineDecisionOf(rule)(s) == Some(None) <==> s != "" && ParseInt(s).None?)
  {
  }

  lemma DecideEscaped(rule: IntRule, lines: seq<string>, pos: nat)
    requires rule.onBadNumber == Propagate
    ensures var r := Decide(FirstDecided(lines, pos, LineDecisionOf(rule)));
      r.Escaped? <==> exists j :: pos <= j < |lines| && lines[j] != "" && ParseInt(lines[j]).None?
                                 && forall i :: pos <= i < j ==> Skippable(rule, lines[i])
  {
    var check := LineDecisionOf(rule);
    var d := FirstDecided(lines, pos, check);
    FirstDecidedIsFirst(lines, pos, check);
    if d.Accepted? {
      LineDecisionMeans(rule, lines[d.next - 1]);
      if d.value.None? {
        forall i | pos <= i < d.next - 1 ensures Skippable(rule, lines[i]) {
          LineDecisionMeans(rule, lines[i]);
        }
      }
    }
    if exists j :: pos <= j < |lines| && lines[j] != "" && ParseInt(lines[j]).None?
                   && forall i :: pos <= i < j ==> Skippable(rule, lines[i]) {
      var j :| pos <= j < |lines| && lines[j] != "" && ParseInt(lines[j]).None?
               && forall i :: pos <= i < j ==> Skippable(rule, lines[i]);
      LineDecisionMeans(rule, lines[j]);
      assert d.Accepted?;
      assert d.next - 1 == j;
    }
  }
}
