/** A filter that puts a prefix in front of every line (3rd/openssl/apps/bf_prefix.c). */
module PrefixFilters {
  const LF := '\n'

  // The text with the prefix in front of every line started in it; atStart tells
  // whether its first character starts a line.
  function Prefixed(prefix: string, atStart: bool, text: string): string
    decreases |text|
  {
    if text == "" then "" else
      (if atStart then prefix else "") + [text[0]] + Prefixed(prefix, text[0] == LF, text[1..])
  }

  predicate EndsAtStart(atStart: bool, text: string) {
    if text == "" then atStart else text[|text| - 1] == LF
  }

  lemma {:induction false} PrefixedConcat(prefix: string, atStart: bool, a: string, b: string)
    ensures Prefixed(prefix, atStart, a + b)
         == Prefixed(prefix, atStart, a) + Prefixed(prefix, EndsAtStart(atStart, a), b)
    decreases |a|
  {
    if a == "" {
      assert a + b == b;
    } else {
      assert (a + b)[1..] == a[1..] + b;
      PrefixedConcat(prefix, a[0] == LF, a[1..], b);
      var head := (if atStart then prefix else "") + [a[0]];
      assert head + (Prefixed(prefix, a[0] == LF, a[1..]) + Prefixed(prefix, EndsAtStart(atStart, a), b))
          == head + Prefixed(prefix, a[0] == LF, a[1..]) + Prefixed(prefix, EndsAtStart(atStart, a), b);
    }
  }

  // A stretch within one line only gets the prefix in front.
  lemma {:induction false} WithinLine(prefix: string, text: string)
    requires forall i | 0 <= i < |text| - 1 :: text[i] != LF
    ensures Prefixed(prefix, false, text) == text
    decreases |text|
  {
    if text != "" {
      assert Prefixed(prefix, false, text[1..]) == text[1..] by { WithinLine(prefix, text[1..]); }
      if |text| == 1 {
        assert text[1..] == "" && text == [text[0]];
      } else {
        assert text == [text[0]] + text[1..];
      }
    }
  }

  // ---------- A prefix that is not taken whole ----------

  // The lines started in a text.
  function Starts(atStart: bool, text: string): nat
    decreases |text|
  {
    if text == "" then 0 else (if atStart then 1 else 0) + Starts(text[0] == LF, text[1..])
  }

  // What is taken of the prefix at the next line; whole if nothing is said of it.
  function Taken(prefix: string, cuts: seq<nat>): string {
    if cuts == [] || cuts[0] >= |prefix| then prefix else prefix[..cuts[0]]
  }

  function Drop(cuts: seq<nat>, n: nat): seq<nat> { if n <= |cuts| then cuts[n..] else [] }

  // The text with, in front of every line started in it, as much of the prefix as is taken there.
  function Woven(prefix: string, cuts: seq<nat>, atStart: bool, text: string): string
    decreases |text|
  {
    if text == "" then "" else
      (if atStart then Taken(prefix, cuts) else "") + [text[0]]
      + Woven(prefix, if atStart then Drop(cuts, 1) else cuts, text[0] == LF, text[1..])
  }

  lemma {:induction false} WovenWhole(prefix: string, atStart: bool, text: string)
    ensures Woven(prefix, [], atStart, text) == Prefixed(prefix, atStart, text)
    decreases |text|
  {
    if text != "" {
      WovenWhole(prefix, text[0] == LF, text[1..]);
    }
  }

  lemma {:induction false} WovenConcat(prefix: string, cuts: seq<nat>, atStart: bool, a: string, b: string)
    ensures Woven(prefix, cuts, atStart, a + b)
         == Woven(prefix, cuts, atStart, a) + Woven(prefix, Drop(cuts, Starts(atStart, a)), EndsAtStart(atStart, a), b)
    decreases |a|
  {
    hide Woven, Taken, Drop;
    if a == "" {
      assert a + b == b;
      WovenNothing(prefix, cuts, atStart);
    } else {
      var ab := a + b;
      assert ab[0] == a[0] && ab[1..] == a[1..] + b;
      var cuts' := if atStart then Drop(cuts, 1) else cuts;
      WovenConcat(prefix, cuts', a[0] == LF, a[1..], b);
      DropDrop(cuts, Starts(a[0] == LF, a[1..]));
      WovenStep(prefix, cuts, atStart, ab);
      WovenStep(prefix, cuts, atStart, a);
      var head := (if atStart then Taken(prefix, cuts) else "") + [a[0]];
      var rest := Woven(prefix, Drop(cuts, Starts(atStart, a)), EndsAtStart(atStart, a), b);
      var line := Woven(prefix, cuts', a[0] == LF, a[1..]);
      assert head + (line + rest) == head + line + rest;
    }
  }

  lemma WovenNothing(prefix: string, cuts: seq<nat>, atStart: bool)
    ensures Woven(prefix, cuts, atStart, "") == "" && Drop(cuts, 0) == cuts
  {
  }

  lemma DropDrop(cuts: seq<nat>, n: nat)
    ensures Drop(Drop(cuts, 1), n) == Drop(cuts, n + 1)
  {
  }

  lemma {:induction false} StartsConcat(atStart: bool, a: string, b: string)
    ensures Starts(atStart, a + b) == Starts(atStart, a) + Starts(EndsAtStart(atStart, a), b)
    ensures EndsAtStart(atStart, a + b) == EndsAtStart(EndsAtStart(atStart, a), b)
    decreases |a|
  {
    if a == "" {
      assert a + b == b;
    } else {
      assert (a + b)[0] == a[0] && (a + b)[1..] == a[1..] + b;
      StartsConcat(a[0] == LF, a[1..], b);
    }
  }

  // What is said of later lines does not matter.
  lemma {:induction false} WovenExtra(prefix: string, cuts: seq<nat>, more: seq<nat>, atStart: bool, text: string)
    requires Starts(atStart, text) <= |cuts|
    ensures Woven(prefix, cuts + more, atStart, text) == Woven(prefix, cuts, atStart, text)
    decreases |text|
  {
    if text != "" {
      if atStart {
        assert (cuts + more)[0] == cuts[0] && (cuts + more)[1..] == cuts[1..] + more;
        WovenExtra(prefix, cuts[1..], more, text[0] == LF, text[1..]);
      } else {
        WovenExtra(prefix, cuts, more, text[0] == LF, text[1..]);
      }
    }
  }

  function Missing(prefix: string, cuts: seq<nat>): nat {
    if cuts == [] then 0 else (if cuts[0] >= |prefix| then 0 else |prefix| - cuts[0]) + Missing(prefix, cuts[1..])
  }

  lemma {:induction false} WovenLength(prefix: string, cuts: seq<nat>, atStart: bool, text: string)
    requires |cuts| <= Starts(atStart, text)
    ensures |Woven(prefix, cuts, atStart, text)| + Missing(prefix, cuts) == |Prefixed(prefix, atStart, text)|
    decreases |text|
  {
    if text != "" {
      WovenLength(prefix, if atStart then Drop(cuts, 1) else cuts, text[0] == LF, text[1..]);
    }
  }

  lemma {:induction false} WholeCuts(prefix: string, cuts: seq<nat>, atStart: bool, text: string)
    requires forall c | c in cuts :: c >= |prefix|
    ensures Woven(prefix, cuts, atStart, text) == Prefixed(prefix, atStart, text)
    decreases |text|
  {
    if text != "" {
      assert forall c | c in Drop(cuts, 1) :: c in cuts;
      assert cuts != [] ==> cuts[0] in cuts;
      WholeCuts(prefix, if atStart then Drop(cuts, 1) else cuts, text[0] == LF, text[1..]);
    }
  }

  lemma {:induction false} NoneMissing(prefix: string, cuts: seq<nat>)
    requires Missing(prefix, cuts) == 0
    ensures forall c | c in cuts :: c >= |prefix|
  {
    if cuts != [] {
      NoneMissing(prefix, cuts[1..]);
      assert cuts == [cuts[0]] + cuts[1..];
    }
  }

  /** The output is right if and only if the prefix was taken whole at every line. */
  lemma WovenExactly(prefix: string, cuts: seq<nat>, atStart: bool, text: string)
    requires |cuts| <= Starts(atStart, text)
    ensures Woven(prefix, cuts, atStart, text) == Prefixed(prefix, atStart, text)
            <==> forall c | c in cuts :: c >= |prefix|
  {
    hide Woven, Prefixed;
    WovenLength(prefix, cuts, atStart, text);
    if forall c | c in cuts :: c >= |prefix| {
      WholeCuts(prefix, cuts, atStart, text);
    } else if Missing(prefix, cuts) == 0 {
      NoneMissing(prefix, cuts);
    }
  }

  // One character of a prefix of two is taken, and the other is missing from the output.
  lemma PrefixCanBeCut()
    ensures Woven("ab", [1], true, "x") == "ax" && Prefixed("ab", true, "x") == "abx"
  {
    var text := "x";
    assert text[1..] == "";
    assert Woven("ab", [1], true, text) == "ab"[..1] + [text[0]] + "" == "ax";
    assert Prefixed("ab", true, text) == "ab" + [text[0]] + "" == "abx";
  }

  // ---------- One stretch of a line ----------

  lemma {:induction false} InLine(atStart: bool, part: string)
    requires part != "" && forall i | 0 <= i < |part| - 1 :: part[i] != LF
    ensures Starts(atStart, part) == if atStart then 1 else 0
    decreases |part|
  {
    if |part| > 1 {
      InLine(false, part[1..]);
    } else {
      assert part[1..] == "";
    }
  }

  lemma AfterStretch(prefix: string, cuts: seq<nat>, from: bool, done: string, k: nat, part: string)
    requires |cuts| == Starts(from, done) && k <= |prefix|
    requires part != "" && forall i | 0 <= i < |part| - 1 :: part[i] != LF
    ensures var atStart := EndsAtStart(from, done);
            var cuts' := if atStart then cuts + [k] else cuts;
            Woven(prefix, cuts', from, done + part)
            == Woven(prefix, cuts, from, done) + (if atStart then prefix[..k] else "") + part
            && |cuts'| == Starts(from, done + part)
    ensures EndsAtStart(from, done + part) == (part[|part| - 1] == LF)
  {
    hide Prefixed, Woven;
    var atStart := EndsAtStart(from, done);
    StartsConcat(from, done, part);
    InLine(atStart, part);
    var now := if atStart then [k] else [];
    assert cuts + [] == cuts && (cuts + now)[|cuts|..] == now;
    WovenConcat(prefix, cuts + now, from, done, part);
    WovenExtra(prefix, cuts, now, from, done);
    WovenStretch(prefix, now, atStart, part);
    var start := if atStart then prefix[..k] else "";
    assert Woven(prefix, cuts, from, done) + (start + part) == Woven(prefix, cuts, from, done) + start + part;
  }

  lemma WovenStretch(prefix: string, now: seq<nat>, atStart: bool, part: string)
    requires part != "" && forall i | 0 <= i < |part| - 1 :: part[i] != LF
    requires if atStart then |now| == 1 && now[0] <= |prefix| else now == []
    ensures Woven(prefix, now, atStart, part) == (if atStart then prefix[..now[0]] else "") + part
  {
    WovenPending(prefix, now, atStart, part);
    WithinLine(prefix, part);
  }

  // The prefix is out, the line is not.
  lemma WovenPending(prefix: string, now: seq<nat>, atStart: bool, rest: string)
    requires rest != ""
    requires if atStart then |now| == 1 && now[0] <= |prefix| else now == []
    ensures Woven(prefix, now, atStart, rest)
         == (if atStart then prefix[..now[0]] else "") + Prefixed(prefix, false, rest)
  {
    hide Woven, Prefixed;
    WovenStep(prefix, now, atStart, rest);
    PrefixedStep(prefix, rest);
    WovenWhole(prefix, rest[0] == LF, rest[1..]);
    var start := if atStart then prefix[..now[0]] else "";
    if atStart {
      assert prefix[..|prefix|] == prefix && now[1..] == [];
    }
    var more := Prefixed(prefix, rest[0] == LF, rest[1..]);
    assert start + [rest[0]] + more == start + ([rest[0]] + more);
  }

  lemma WovenStep(prefix: string, cuts: seq<nat>, atStart: bool, text: string)
    requires text != ""
    ensures Woven(prefix, cuts, atStart, text)
         == (if atStart then Taken(prefix, cuts) else "") + [text[0]]
            + Woven(prefix, if atStart then Drop(cuts, 1) else cuts, text[0] == LF, text[1..])
  {
  }

  lemma PrefixedStep(prefix: string, text: string)
    requires text != ""
    ensures Prefixed(prefix, false, text) == [text[0]] + Prefixed(prefix, text[0] == LF, text[1..])
  {
    var more := Prefixed(prefix, text[0] == LF, text[1..]);
    assert "" + [text[0]] + more == [text[0]] + more;
  }

  // What has been written and what the rest calls for.
  lemma AtExit(prefix: string, cuts: seq<nat>, from: bool, done: string, rest: string)
    requires |cuts| == Starts(from, done)
    ensures Woven(prefix, cuts, from, done) + Prefixed(prefix, EndsAtStart(from, done), rest)
         == Woven(prefix, cuts, from, done + rest)
  {
    hide Woven, Prefixed;
    WovenConcat(prefix, cuts, from, done, rest);
    assert cuts[|cuts|..] == [];
    WovenWhole(prefix, EndsAtStart(from, done), rest);
  }

  lemma AtExitPending(prefix: string, cuts: seq<nat>, from: bool, done: string, k: nat, rest: string)
    requires |cuts| == Starts(from, done) && EndsAtStart(from, done) && rest != "" && k <= |prefix|
    ensures Woven(prefix, cuts, from, done) + prefix[..k] + Prefixed(prefix, false, rest)
         == Woven(prefix, cuts + [k], from, done + rest)
    ensures |cuts| < Starts(from, done + rest)
  {
    hide Woven, Prefixed;
    WovenConcat(prefix, cuts + [k], from, done, rest);
    assert (cuts + [k])[|cuts|..] == [k];
    WovenExtra(prefix, cuts, [k], from, done);
    WovenPending(prefix, [k], true, rest);
    StartsConcat(from, done, rest);
    var a, b, c := Woven(prefix, cuts, from, done), prefix[..k], Prefixed(prefix, false, rest);
    assert a + b + c == a + (b + c);
  }

  // ---------- The filter in terms of whole lines ----------

  function LineEnd(text: string): (n: nat)
    ensures n <= |text| && (text != "" ==> n > 0)
    ensures forall i | 0 <= i < n - 1 :: text[i] != '\n'
    ensures n < |text| ==> n > 0 && text[n - 1] == '\n'
  {
    if text == "" then 0 else if text[0] == LF then 1 else 1 + LineEnd(text[1..])
  }

  // The lines of a text, each with its line feed; the last may lack one.
  function Lines(text: string): seq<string>
    decreases |text|
  {
    if text == "" then [] else [text[..LineEnd(text)]] + Lines(text[LineEnd(text)..])
  }

  function EachPrefixed(prefix: string, lines: seq<string>): string {
    if lines == [] then "" else prefix + lines[0] + EachPrefixed(prefix, lines[1..])
  }

  /** From the start of a line, the output is every line with the prefix in front. */
  lemma {:induction false} PrefixedIsByLine(prefix: string, text: string)
    ensures Prefixed(prefix, true, text) == EachPrefixed(prefix, Lines(text))
    decreases |text|
  {
    if text != "" {
      var n := LineEnd(text);
      var line, rest := text[..n], text[n..];
      assert text == line + rest;
      PrefixedConcat(prefix, true, line, rest);
      OneLine(prefix, line);
      assert Lines(text)[0] == line && Lines(text)[1..] == Lines(rest);
      if rest != "" {
        PrefixedIsByLine(prefix, rest);
      }
    }
  }

  function Together(lines: seq<string>): string { if lines == [] then "" else lines[0] + Together(lines[1..]) }

  // A line feed ends every line but perhaps the last, and is nowhere else.
  predicate LineByLine(lines: seq<string>) {
    lines != [] ==>
      lines[0] != "" && (forall i | 0 <= i < |lines[0]| - 1 :: lines[0][i] != '\n')
      && (|lines| > 1 ==> lines[0][|lines[0]| - 1] == '\n') && LineByLine(lines[1..])
  }

  /** The lines, put together, are the text. */
  lemma {:induction false} LinesAre(text: string)
    ensures Together(Lines(text)) == text && LineByLine(Lines(text))
    decreases |text|
  {
    if text != "" {
      var n := LineEnd(text);
      var line, rest := text[..n], text[n..];
      LinesAre(rest);
      assert Lines(text)[0] == line && Lines(text)[1..] == Lines(rest);
      assert text == line + rest;
    }
  }

  // Two lines and their prefixes.
  lemma KnownLines()
    ensures Prefixed("> ", true, "a\nb") == "> a\n> b"
  {
    var text := "a\nb";
    assert text[1..] == "\nb" && text[1..][1..] == "b" && "b"[1..] == "";
    assert Prefixed("> ", true, "b") == "> b";
    assert Prefixed("> ", false, "\nb") == "\n> b";
  }

  lemma OneLine(prefix: string, line: string)
    requires line != "" && forall i | 0 <= i < |line| - 1 :: line[i] != LF
    ensures Prefixed(prefix, true, line) == prefix + line
  {
    if |line| == 1 {
      assert line[1..] == "" && line == [line[0]];
    } else {
      WithinLine(prefix, line[1..]);
      assert line == [line[0]] + line[1..];
    }
  }

  // ---------- The filter ----------

  // The next BIO. A write may fail, or take only some of the bytes, but at least one.
  class Sink {
    var written: string

    constructor ()
      ensures written == ""
    {
      written := "";
    }

    method Write(data: string) returns (ok: bool, num: nat)
      modifies this
      ensures ok && data != "" ==> 0 < num
      ensures num <= |data| && (!ok ==> num == 0)
      ensures written == old(written) + data[..num]
    {
      if * {
        return false, 0;
      }
      var n: nat :| n <= |data| && (data != "" ==> n > 0);
      written := written + data[..n];
      return true, n;
    }
  }

  class PrefixFilter {
    var prefix: string
    var lineStart: bool
    const next: Sink

    constructor (next: Sink)
      ensures this.next == next && prefix == "" && lineStart
    {
      this.next, prefix, lineStart := next, "", true;
    }

    method SetPrefix(p: string)
      modifies this`prefix
      ensures prefix == p
    {
      prefix := p;
    }

    /**
     With a prefix set, cuts is how much of it the next BIO took at each line started, which the
     source throws away. Whether or not the call succeeds, what has been written and what the unwritten
     rest of the text still calls for are together the whole text with those prefixes; a successful
     call reports all of its input as written.
     */
    method Write(text: string) returns (ok: bool, numWritten: nat, cuts: seq<nat>)
      modifies this`lineStart, next
      ensures numWritten <= |text|
      ensures prefix != "" ==>
                |cuts| <= Starts(old(lineStart), text) && (forall c | c in cuts :: 0 < c <= |prefix|)
                && next.written + Prefixed(prefix, lineStart, text[numWritten..])
                   == old(next.written) + Woven(prefix, cuts, old(lineStart), text)
      ensures prefix != "" && ok ==>
                numWritten == |text| && lineStart == EndsAtStart(old(lineStart), text)
                  && |cuts| == Starts(old(lineStart), text)
      ensures prefix == "" ==>
                next.written == old(next.written) + text[..numWritten] && lineStart == EndsAtStart(old(lineStart), text)
    {
      hide Progress, Owed, EndsAtStart;
      cuts := [];
      LastCharacter(lineStart, text);
      if prefix == "" {
        if |text| > 0 {
          lineStart := text[|text| - 1] == LF;
        }
        ok, numWritten := next.Write(text);
        return;
      }
      numWritten := 0;
      ghost var from, before := lineStart, next.written;
      ProgressStarts(prefix, from, text, before);
      while numWritten < |text|
        invariant numWritten <= |text|
        invariant Progress(prefix, cuts, from, text, numWritten, lineStart, before, next.written)
        decreases |text| - numWritten
      {
        ok, numWritten, cuts := WriteLine(text, numWritten, from, before, cuts);
        if !ok {
          OwedMeans(prefix, cuts, from, text, numWritten, lineStart, before, next.written);
          return;
        }
      }
      ProgressEnds(prefix, cuts, from, text, lineStart, before, next.written);
      OwedMeans(prefix, cuts, from, text, numWritten, lineStart, before, next.written);
      ok := true;
    }

    // Everything up to n is out, with as much of the prefix at each line as was taken.
    static ghost predicate Progress(prefix: string, cuts: seq<nat>, from: bool, text: string, n: nat, lineStart: bool,
                                    before: string, written: string)
      requires n <= |text|
    {
      (forall c | c in cuts :: 0 < c <= |prefix|)
      && |cuts| == Starts(from, text[..n]) && lineStart == EndsAtStart(from, text[..n])
      && written == before + Woven(prefix, cuts, from, text[..n])
    }

    // What is out and what the rest calls for make up the whole.
    static ghost predicate Owed(prefix: string, cuts: seq<nat>, from: bool, text: string, n: nat, lineStart: bool,
                                before: string, written: string)
      requires n <= |text|
    {
      (forall c | c in cuts :: 0 < c <= |prefix|) && |cuts| <= Starts(from, text)
      && written + Prefixed(prefix, lineStart, text[n..]) == before + Woven(prefix, cuts, from, text)
    }

    static lemma OwedMeans(prefix: string, cuts: seq<nat>, from: bool, text: string, n: nat, lineStart: bool,
                           before: string, written: string)
      requires n <= |text| && Owed(prefix, cuts, from, text, n, lineStart, before, written)
      ensures (forall c | c in cuts :: 0 < c <= |prefix|) && |cuts| <= Starts(from, text)
      ensures written + Prefixed(prefix, lineStart, text[n..]) == before + Woven(prefix, cuts, from, text)
    {
    }

    static lemma ProgressStarts(prefix: string, from: bool, text: string, before: string)
      ensures Progress(prefix, [], from, text, 0, from, before, before)
    {
      assert text[..0] == "" && before + "" == before;
    }

    static lemma ProgressOwed(prefix: string, cuts: seq<nat>, from: bool, text: string, n: nat, lineStart: bool,
                              before: string, written: string)
      requires n <= |text| && Progress(prefix, cuts, from, text, n, lineStart, before, written)
      ensures Owed(prefix, cuts, from, text, n, lineStart, before, written)
    {
      hide Woven, Prefixed, Starts, EndsAtStart;
      var done, rest := text[..n], text[n..];
      assert done + rest == text;
      AtExit(prefix, cuts, from, done, rest);
      StartsConcat(from, done, rest);
      var a, b := Woven(prefix, cuts, from, done), Prefixed(prefix, lineStart, rest);
      assert before + a + b == before + (a + b);
    }

    static lemma ProgressEnds(prefix: string, cuts: seq<nat>, from: bool, text: string, lineStart: bool,
                              before: string, written: string)
      requires Progress(prefix, cuts, from, text, |text|, lineStart, before, written)
      ensures Owed(prefix, cuts, from, text, |text|, lineStart, before, written)
      ensures |cuts| == Starts(from, text) && lineStart == EndsAtStart(from, text)
    {
      ProgressOwed(prefix, cuts, from, text, |text|, lineStart, before, written);
      assert text[..|text|] == text;
    }

    // The prefix is out, nothing of its line is.
    static lemma PendingOwed(prefix: string, cuts: seq<nat>, from: bool, text: string, n: nat, k: nat, before: string,
                             was: string)
      requires n < |text| && 0 < k <= |prefix| && Progress(prefix, cuts, from, text, n, true, before, was)
      ensures Owed(prefix, cuts + [k], from, text, n, false, before, was + prefix[..k])
    {
      hide Woven, Prefixed, Starts, EndsAtStart;
      var done, rest := text[..n], text[n..];
      assert done + rest == text;
      AtExitPending(prefix, cuts, from, done, k, rest);
      var a, b, c := Woven(prefix, cuts, from, done), prefix[..k], Prefixed(prefix, false, rest);
      assert before + a + b + c == before + (a + b + c);
    }

    // A stretch of the line is out.
    static lemma StretchProgress(prefix: string, cuts: seq<nat>, from: bool, text: string, n: nat, k: nat,
                                 atStart: bool, upTo: nat, before: string, was: string)
      requires n < upTo <= |text| && (atStart ==> 0 < k <= |prefix|) && k <= |prefix|
      requires forall i | n <= i < upTo - 1 :: text[i] != LF
      requires Progress(prefix, cuts, from, text, n, atStart, before, was)
      ensures Progress(prefix, if atStart then cuts + [k] else cuts, from, text, upTo, text[upTo - 1] == LF, before,
                       was + (if atStart then prefix[..k] else "") + text[n..upTo])
    {
      hide Woven, Starts, EndsAtStart;
      var done, part := text[..n], text[n..upTo];
      assert done + part == text[..upTo];
      assert part[|part| - 1] == text[upTo - 1];
      AfterStretch(prefix, cuts, from, done, k, part);
      var a, b := Woven(prefix, cuts, from, done), if atStart then prefix[..k] else "";
      assert before + a + b + part == before + (a + b + part);
    }

    // One turn of the loop: the prefix if a line starts here, then the rest of the line.
    method WriteLine(text: string, n: nat, ghost from: bool, ghost before: string, cuts: seq<nat>)
      returns (ok: bool, upTo: nat, cuts': seq<nat>)
      requires n < |text| && prefix != "" && Progress(prefix, cuts, from, text, n, lineStart, before, next.written)
      modifies this`lineStart, next
      ensures upTo <= |text|
      ensures ok ==> upTo > n && Progress(prefix, cuts', from, text, upTo, lineStart, before, next.written)
      ensures !ok ==> Owed(prefix, cuts', from, text, upTo, lineStart, before, next.written)
    {
      hide Progress, Owed;
      ghost var atStart, was, k: nat := lineStart, next.written, 0;
      upTo, cuts' := n, cuts;
      ProgressOwed(prefix, cuts, from, text, n, lineStart, before, was);
      if lineStart {
        var dontCare;
        ok, dontCare := next.Write(prefix);
        if !ok {
          assert was + prefix[..0] == was;
          return;
        }
        k := dontCare;
        lineStart := false;
        cuts' := cuts + [dontCare];
        PendingOwed(prefix, cuts, from, text, n, k, before, was);
      }
      ghost var start := if atStart then prefix[..k] else "";
      assert was + "" == was;
      assert next.written == was + start;
      var i, found := FindLineEnd(text, n);
      ok, upTo := WriteOut(text, n, i);
      assert was + start + text[n..n] == was + start;
      if upTo > n {
        StretchProgress(prefix, cuts, from, text, n, k, atStart, upTo, before, was);
        ProgressOwed(prefix, cuts', from, text, upTo, text[upTo - 1] == LF, before, next.written);
      }
      if ok && found {
        lineStart := true;
      }
    }

    static lemma NothingYet(prefix: string, atStart: bool)
      ensures Woven(prefix, [], atStart, "") == "" && Prefixed(prefix, atStart, "") == "" && Starts(atStart, "") == 0
      ensures EndsAtStart(atStart, "") == atStart
    {
    }

    static lemma LastCharacter(atStart: bool, text: string)
      ensures EndsAtStart(atStart, text) == if |text| > 0 then text[|text| - 1] == LF else atStart
    {
    }

    // The end of the line that holds position from, or of the text.
    static method FindLineEnd(text: string, from: nat) returns (end: nat, found: bool)
      requires from < |text|
      ensures from < end <= |text| && (forall k | from <= k < end - 1 :: text[k] != LF)
      ensures found == (text[end - 1] == LF) && (!found ==> end == |text|)
    {
      end := from;
      while end < |text| && text[end] != LF
        invariant from <= end <= |text|
        invariant forall k | from <= k < end :: text[k] != LF
      {
        end := end + 1;
      }
      found := end < |text|;
      if found {
        end := end + 1;
      }
    }

    // One stretch of the text, in as many writes as it takes.
    method WriteOut(text: string, from: nat, end: nat) returns (ok: bool, upTo: nat)
      requires from < end <= |text|
      modifies next
      ensures from <= upTo <= end && (ok ==> upTo == end) && (!ok ==> upTo < end)
      ensures next.written == old(next.written) + text[from..upTo]
    {
      upTo := from;
      while upTo < end
        invariant from <= upTo <= end
        invariant next.written == old(next.written) + text[from..upTo]
        decreases end - upTo
      {
        var num;
        ok, num := next.Write(text[upTo..end]);
        assert text[from..upTo] + text[upTo..end][..num] == text[from..upTo + num];
        if !ok {
          return;
        }
        upTo := upTo + num;
      }
      ok := true;
    }
  }

  // ---------- Any split into writes ----------

  function Joined(pieces: seq<string>): string {
    if pieces == [] then "" else pieces[0] + Joined(pieces[1..])
  }

  lemma {:induction false} JoinedSnoc(pieces: seq<string>, last: string)
    ensures Joined(pieces + [last]) == Joined(pieces) + last
  {
    if pieces == [] {
      assert pieces + [last] == [last] && [last][1..] == [] && last + "" == last;
    } else {
      assert (pieces + [last])[1..] == pieces[1..] + [last];
      JoinedSnoc(pieces[1..], last);
      assert pieces[0] + (Joined(pieces[1..]) + last) == pieces[0] + Joined(pieces[1..]) + last;
    }
  }

  lemma NextPiece(prefix: string, cuts: seq<nat>, now: seq<nat>, done: string, piece: string)
    requires |cuts| == Starts(true, done) && |now| == Starts(EndsAtStart(true, done), piece)
    ensures Woven(prefix, cuts, true, done) + Woven(prefix, now, EndsAtStart(true, done), piece)
         == Woven(prefix, cuts + now, true, done + piece)
    ensures |cuts + now| == Starts(true, done + piece)
    ensures EndsAtStart(true, done + piece) == EndsAtStart(EndsAtStart(true, done), piece)
  {
    hide Woven, Starts;
    WovenConcat(prefix, cuts + now, true, done, piece);
    assert (cuts + now)[|cuts|..] == now;
    WovenExtra(prefix, cuts, now, true, done);
    StartsConcat(true, done, piece);
  }

  // Without a prefix the text passes through.
  lemma {:induction false} PlainText(text: string)
    ensures forall atStart :: Prefixed("", atStart, text) == text
    decreases |text|
  {
    if text != "" {
      PlainText(text[1..]);
      assert text == [text[0]] + text[1..];
      forall atStart
        ensures Prefixed("", atStart, text) == text
      {
        assert (if atStart then "" else "") + [text[0]] == [text[0]];
      }
    }
  }

  method WritePlain(filter: PrefixFilter, pieces: seq<string>) returns (ok: bool)
    requires filter.prefix == ""
    modifies filter`lineStart, filter.next
    ensures ok ==> filter.next.written == old(filter.next.written) + Joined(pieces)
  {
    for i := 0 to |pieces|
      invariant filter.next.written == old(filter.next.written) + Joined(pieces[..i])
    {
      JoinedSnoc(pieces[..i], pieces[i]);
      assert pieces[..i + 1] == pieces[..i] + [pieces[i]];
      var numWritten, cuts;
      ok, numWritten, cuts := filter.Write(pieces[i]);
      if !ok || numWritten < |pieces[i]| {
        return false;
      }
      assert pieces[i][..numWritten] == pieces[i];
    }
    assert pieces[..|pieces|] == pieces;
    ok := true;
  }

  /**
   A text written in any pieces, all written whole, comes out with the prefix, as far as it was
   taken, in front of each of its lines; so it is the lines with the prefix in front if and only
   if the prefix was taken whole at every one.
   */
  method WritePieces(prefix: string, pieces: seq<string>) returns (ok: bool, output: string, cuts: seq<nat>)
    ensures ok ==> |cuts| <= Starts(true, Joined(pieces)) && output == Woven(prefix, cuts, true, Joined(pieces))
    ensures ok && prefix != "" ==> |cuts| == Starts(true, Joined(pieces))
    ensures ok ==> (output == EachPrefixed(prefix, Lines(Joined(pieces))) <==> forall c | c in cuts :: c >= |prefix|)
  {
    hide Prefixed, Woven, EachPrefixed, Lines, EndsAtStart, Starts;
    var sink := new Sink();
    var filter := new PrefixFilter(sink);
    filter.SetPrefix(prefix);
    cuts := [];
    PrefixFilter.NothingYet(prefix, true);
    if prefix == "" {
      ok := WritePlain(filter, pieces);
      PlainText(Joined(pieces));
      PrefixedIsByLine(prefix, Joined(pieces));
      WovenWhole(prefix, true, Joined(pieces));
      return ok, sink.written, [];
    }
    for i := 0 to |pieces|
      invariant fresh(sink) && fresh(filter) && filter.next == sink && filter.prefix == prefix
      invariant |cuts| == Starts(true, Joined(pieces[..i]))
                && filter.lineStart == EndsAtStart(true, Joined(pieces[..i]))
      invariant sink.written == Woven(prefix, cuts, true, Joined(pieces[..i]))
    {
      ghost var done, before, atStart := Joined(pieces[..i]), sink.written, filter.lineStart;
      JoinedSnoc(pieces[..i], pieces[i]);
      assert pieces[..i + 1] == pieces[..i] + [pieces[i]];
      var numWritten;
      var now;
      ok, numWritten, now := filter.Write(pieces[i]);
      if !ok {
        return false, sink.written, cuts;
      }
      PrefixFilter.NothingYet(prefix, filter.lineStart);
      assert pieces[i][numWritten..] == "" && sink.written + "" == sink.written;
      NextPiece(prefix, cuts, now, done, pieces[i]);
      cuts := cuts + now;
    }
    assert pieces[..|pieces|] == pieces;
    PrefixedIsByLine(prefix, Joined(pieces));
    WovenExactly(prefix, cuts, true, Joined(pieces));
    return true, sink.written, cuts;
  }
}
