/**
  Turning a recipe's instructions into numbered steps, as the detail screen
  does: split on the two-character separator ". " (Foundation's
  `components(separatedBy:)`), trim each piece of the `.whitespaces`
  character set, drop the pieces that became empty, and label the rest
  "Step 1: ...", "Step 2: ...", and so on.
 */
module Instructions {
  import opened Wrappers
  import opened Seqs

  /**
    Foundation's `CharacterSet.whitespaces`: horizontal tab and the Unicode
    space separators (general category Zs). Line feeds and carriage returns
    are not in it.
   */
  predicate IsSpace(c: char)
    ensures c == ' ' || c == '\t' ==> IsSpace(c)
    ensures IsSpace(c) ==> c != '\n' && c != '\r' && c != '\U{000B}' && c != '\U{000C}'
  {
    || c == '\t'
    || c == ' '
    || c == '\U{00A0}'
    || c == '\U{1680}'
    || ('\U{2000}' <= c <= '\U{200A}')
    || c == '\U{202F}'
    || c == '\U{205F}'
    || c == '\U{3000}'
  }

  /** Neither the first nor the last character of `t` is whitespace. */
  predicate TrimmedEdges(t: string)
  {
    t == [] || (!IsSpace(t[0]) && !IsSpace(t[|t| - 1]))
  }

  /** `s` without its leading whitespace. */
  function TrimStart(s: string): (r: string)
    ensures |r| <= |s| && r == s[|s| - |r|..]
    ensures forall i :: 0 <= i < |s| - |r| ==> IsSpace(s[i])
    ensures r == [] || !IsSpace(r[0])
    decreases |s|
  {
    if s != [] && IsSpace(s[0]) then TrimStart(s[1..]) else s
  }

  /** `s` without its trailing whitespace. */
  function TrimEnd(s: string): (r: string)
    ensures |r| <= |s| && r == s[..|r|]
    ensures forall i :: |r| <= i < |s| ==> IsSpace(s[i])
    ensures r == [] || !IsSpace(r[|r| - 1])
    decreases |s|
  {
    if s != [] && IsSpace(s[|s| - 1]) then TrimEnd(s[..|s| - 1]) else s
  }

  /** `trimmingCharacters(in: .whitespaces)`. */
  function Trim(s: string): (r: string)
    ensures TrimmedEdges(r)
  {
    var front := TrimStart(s);
    var r := TrimEnd(front);
    assert r != [] ==> r[0] == front[0];
    r
  }

  /**
    Trimming removes only whitespace, and only at the two ends: the result is
    the slice `s[i..j]` with nothing but whitespace before `i` and after `j`.
   */
  lemma TrimIsSlice(s: string) returns (i: nat, j: nat)
    ensures i <= j <= |s| && Trim(s) == s[i..j]
    ensures forall k :: 0 <= k < i ==> IsSpace(s[k])
    ensures forall k :: j <= k < |s| ==> IsSpace(s[k])
  {
    var front := TrimStart(s);
    var back := TrimEnd(front);
    i := |s| - |front|;
    j := i + |back|;
    assert Trim(s) == back;
    assert back == front[..|back|];
    assert front[..|back|] == s[i..j];
    forall k | j <= k < |s|
      ensures IsSpace(s[k])
    {
      assert s[k] == front[k - i];
    }
  }

  /** A piece trims to the empty string exactly when it is all whitespace. */
  lemma TrimBlank(s: string)
    ensures Trim(s) == [] <==> forall k :: 0 <= k < |s| ==> IsSpace(s[k])
  {
    var i, j := TrimIsSlice(s);
  }

  /** A string that neither starts nor ends with whitespace is its own trim; line breaks at the edges stay. */
  lemma TrimKeepsUnpadded(s: string)
    requires TrimmedEdges(s)
    ensures Trim(s) == s
  {
  }

  /** Trimming twice is trimming once. */
  lemma TrimIdempotent(s: string)
    ensures Trim(Trim(s)) == Trim(s)
  {
    TrimKeepsUnpadded(Trim(s));
  }

  const Separator: string := ". "

  /** The separator ". " starts at index `i` of `s`. */
  predicate SeparatorAt(s: string, i: int)
  {
    0 <= i && i + 1 < |s| && s[i] == '.' && s[i + 1] == ' '
  }

  predicate HasSeparator(s: string)
  {
    exists i :: 0 <= i < |s| && SeparatorAt(s, i)
  }

  /**
    `components(separatedBy: ". ")`: the pieces between occurrences of the
    separator, scanning from the left. There is always at least one piece;
    the empty string gives one empty piece.
   */
  function Components(s: string): (r: seq<string>)
    ensures |r| >= 1
    ensures |r[0]| <= |s| && r[0] == s[..|r[0]|]
    decreases |s|
  {
    if |s| < 2 then [s]
    else if SeparatorAt(s, 0) then [""] + Components(s[2..])
    else
      var rest := Components(s[1..]);
      [[s[0]] + rest[0]] + rest[1..]
  }

  /** The pieces with `sep` between each neighbouring pair. */
  function Join(pieces: seq<string>, sep: string): string
  {
    if |pieces| == 0 then ""
    else if |pieces| == 1 then pieces[0]
    else pieces[0] + sep + Join(pieces[1..], sep)
  }

  /** Joining the untrimmed pieces with ". " gives back the instructions. */
  lemma {:induction false} JoinComponents(s: string)
    ensures Join(Components(s), Separator) == s
    decreases |s|
  {
    if |s| >= 2 {
      if SeparatorAt(s, 0) {
        JoinComponents(s[2..]);
        assert s == Separator + s[2..];
      } else {
        var rest := Components(s[1..]);
        JoinComponents(s[1..]);
        var r := Components(s);
        assert r[1..] == rest[1..];
        if |rest| == 1 {
          assert Join(r, Separator) == [s[0]] + rest[0];
        } else {
          assert Join(r, Separator) == [s[0]] + rest[0] + Separator + Join(rest[1..], Separator);
        }
        assert s == [s[0]] + s[1..];
      }
    }
  }

  lemma SeparatorInTail(c: char, t: string, i: int)
    requires SeparatorAt([c] + t, i) && i >= 1
    ensures SeparatorAt(t, i - 1)
  {
    assert ([c] + t)[i] == t[i - 1] && ([c] + t)[i + 1] == t[i];
  }

  /** The first piece, when `s` does not start with the separator, has none inside. */
  lemma FirstPieceNoSeparator(s: string)
    requires |s| >= 2 && !SeparatorAt(s, 0)
    requires !HasSeparator(Components(s[1..])[0])
    ensures !HasSeparator(Components(s)[0])
  {
    var rest := Components(s[1..]);
    var first := [s[0]] + rest[0];
    assert Components(s)[0] == first;
    if HasSeparator(first) {
      var i :| 0 <= i < |first| && SeparatorAt(first, i);
      if i == 0 {
        assert first[1] == rest[0][0] == s[1];
        assert SeparatorAt(s, 0);
      } else {
        SeparatorInTail(s[0], rest[0], i);
        assert false;
      }
    }
  }

  /** No piece contains the separator. */
  lemma {:induction false} ComponentsHaveNoSeparator(s: string)
    ensures forall k :: 0 <= k < |Components(s)| ==> !HasSeparator(Components(s)[k])
    decreases |s|
  {
    var r := Components(s);
    if |s| >= 2 {
      if SeparatorAt(s, 0) {
        var rest := Components(s[2..]);
        ComponentsHaveNoSeparator(s[2..]);
        forall k | 0 <= k < |r|
          ensures !HasSeparator(r[k])
        {
          if k > 0 {
            assert r[k] == rest[k - 1];
          }
        }
      } else {
        var rest := Components(s[1..]);
        ComponentsHaveNoSeparator(s[1..]);
        FirstPieceNoSeparator(s);
        forall k | 1 <= k < |r|
          ensures !HasSeparator(r[k])
        {
          assert r[k] == rest[k];
        }
      }
    }
  }

  lemma JoinLength(pieces: seq<string>)
    requires |pieces| >= 2
    ensures |Join(pieces, Separator)| >= 2
  {
  }

  lemma FirstPieceBlocksSeparator(pieces: seq<string>, s: string)
    requires |pieces| >= 1 && pieces[0] != [] && !HasSeparator(pieces[0])
    requires Join(pieces, Separator) == s
    ensures !SeparatorAt(s, 0)
  {
    var p := pieces[0];
    if |pieces| == 1 {
      assert s == p;
    } else {
      assert s == p + Separator + Join(pieces[1..], Separator);
    }
    if |p| >= 2 {
      assert !SeparatorAt(p, 0);
      assert s[0] == p[0] && s[1] == p[1];
    } else if |pieces| >= 2 {
      assert s[1] == '.';
    }
  }

  /**
    The pieces are the only separator-free decomposition: any non-empty list
    of separator-free strings that joins with ". " to `s` is `Components(s)`.
   */
  lemma {:induction false} ComponentsUnique(s: string, pieces: seq<string>)
    requires |pieces| >= 1
    requires forall k :: 0 <= k < |pieces| ==> !HasSeparator(pieces[k])
    requires Join(pieces, Separator) == s
    ensures pieces == Components(s)
    decreases |s|
  {
    if |s| < 2 {
      if |pieces| >= 2 {
        JoinLength(pieces);
      }
    } else if pieces[0] == [] {
      assert |pieces| >= 2;
      var tail := pieces[1..];
      assert s == Separator + Join(tail, Separator);
      assert SeparatorAt(s, 0);
      assert s[2..] == Join(tail, Separator);
      ComponentsUnique(s[2..], tail);
      assert pieces == [""] + tail;
    } else {
      var c := pieces[0][0];
      var q := pieces[0][1..];
      var shorter := [q] + pieces[1..];
      forall i | SeparatorAt(q, i)
        ensures false
      {
        assert pieces[0] == [c] + q;
        assert SeparatorAt(pieces[0], i + 1);
      }
      assert forall k :: 1 <= k < |shorter| ==> shorter[k] == pieces[k];
      assert forall k :: 0 <= k < |shorter| ==> !HasSeparator(shorter[k]);
      if |pieces| == 1 {
        assert Join(shorter, Separator) == q;
      } else {
        assert shorter[1..] == pieces[1..];
        assert Join(shorter, Separator) == q + Separator + Join(pieces[1..], Separator);
      }
      assert s == [c] + Join(shorter, Separator);
      assert s[1..] == Join(shorter, Separator);
      ComponentsUnique(s[1..], shorter);
      FirstPieceBlocksSeparator(pieces, s);
      var rest := Components(s[1..]);
      assert rest == shorter;
      assert rest[0] == q && rest[1..] == pieces[1..];
      assert pieces[0] == [c] + q;
      assert pieces == [pieces[0]] + pieces[1..];
    }
  }

  /** Text with no ". " in it is a single piece. */
  lemma ComponentsWithoutSeparator(s: string)
    requires !HasSeparator(s)
    ensures Components(s) == [s]
  {
    ComponentsUnique(s, [s]);
  }

  predicate NonEmpty(t: string)
  {
    t != []
  }

  /** Every piece trimmed, in order. */
  function TrimEach(pieces: seq<string>): (r: seq<string>)
    ensures |r| == |pieces|
    ensures forall t :: t in r ==> TrimmedEdges(t)
  {
    seq(|pieces|, k requires 0 <= k < |pieces| => Trim(pieces[k]))
  }

  /** The instruction steps the detail screen shows. */
  function Steps(instructions: string): (steps: seq<string>)
    ensures forall t :: t in steps ==> t != [] && TrimmedEdges(t)
  {
    Filter(NonEmpty, TrimEach(Components(instructions)))
  }

  /**
    The steps follow the pieces: step `k` is the trim of piece `pos[k]`, the
    positions ascend, and every piece that does not trim to nothing gives a step.
   */
  lemma StepsFollowPieces(instructions: string) returns (pos: seq<nat>)
    ensures var pieces := Components(instructions);
      && |pos| == |Steps(instructions)|
      && (forall k :: 0 <= k < |pos| ==> pos[k] < |pieces| && Steps(instructions)[k] == Trim(pieces[pos[k]]))
      && (forall k, l :: 0 <= k < l < |pos| ==> pos[k] < pos[l])
      && (forall i :: 0 <= i < |pieces| ==> (Trim(pieces[i]) != [] <==> i in pos))
  {
    var pieces := Components(instructions);
    FilterPicksOutPositions(NonEmpty, TrimEach(pieces));
    pos := Positions(NonEmpty, TrimEach(pieces));
  }

  /** Instructions without ". " give at most one step: their trim, unless that is blank. */
  lemma StepsWithoutSeparator(instructions: string)
    requires !HasSeparator(instructions)
    ensures Steps(instructions) == if Trim(instructions) == [] then [] else [Trim(instructions)]
  {
    ComponentsWithoutSeparator(instructions);
    var trimmed := TrimEach([instructions]);
    assert trimmed == [Trim(instructions)];
    assert trimmed[1..] == [];
  }

  /** Empty instructions give no steps. */
  lemma StepsOfEmpty()
    ensures Steps("") == []
  {
    assert TrimEach([""]) == [""];
    assert TrimEach([""])[1..] == [];
  }

  predicate IsDigit(c: char)
  {
    '0' <= c <= '9'
  }

  function DigitChar(d: nat): (c: char)
    requires d < 10
    ensures IsDigit(c)
  {
    (48 + d) as char
  }

  function DigitValue(c: char): (d: nat)
    requires IsDigit(c)
    ensures d < 10
  {
    c as int - 48
  }

  /** The decimal rendering of `n` that string interpolation of an Int produces. */
  function Decimal(n: nat): (r: string)
    ensures |r| >= 1
    ensures forall k :: 0 <= k < |r| ==> IsDigit(r[k])
    decreases n
  {
    if n < 10 then [DigitChar(n)] else Decimal(n / 10) + [DigitChar(n % 10)]
  }

  function ParseDecimal(s: string): nat
    requires forall k :: 0 <= k < |s| ==> IsDigit(s[k])
  {
    if s == [] then 0 else ParseDecimal(s[..|s| - 1]) * 10 + DigitValue(s[|s| - 1])
  }

  /** Reading the digits back gives the number, and no number but zero has a leading '0'. */
  lemma {:induction false} DecimalRoundTrip(n: nat)
    ensures ParseDecimal(Decimal(n)) == n
    ensures n > 0 ==> Decimal(n)[0] != '0'
    decreases n
  {
    if n >= 10 {
      DecimalRoundTrip(n / 10);
      var r := Decimal(n);
      assert r[..|r| - 1] == Decimal(n / 10);
    }
  }

  /** The longest prefix of `s` made of decimal digits. */
  function LeadingDigits(s: string): (d: string)
    ensures |d| <= |s| && d == s[..|d|]
    ensures forall k :: 0 <= k < |d| ==> IsDigit(d[k])
  {
    if s != [] && IsDigit(s[0]) then [s[0]] + LeadingDigits(s[1..]) else []
  }

  lemma {:induction false} LeadingDigitsOf(d: string, rest: string)
    requires forall k :: 0 <= k < |d| ==> IsDigit(d[k])
    requires rest == [] || !IsDigit(rest[0])
    ensures LeadingDigits(d + rest) == d
    decreases |d|
  {
    if d != [] {
      assert (d + rest)[1..] == d[1..] + rest;
      LeadingDigitsOf(d[1..], rest);
      assert d == [d[0]] + d[1..];
    } else {
      assert d + rest == rest;
    }
  }

  const StepWord: string := "Step "
  const LabelColon: string := ": "

  /** The label of the step at zero-based index `index`: "Step <index + 1>: <step>". */
  function StepLabel(index: nat, step: string): (line: string)
    ensures ParseLabel(line) == Some((index + 1, step))
  {
    LabelReadBack(index + 1, step);
    StepWord + Decimal(index + 1) + LabelColon + step
  }

  /** One label per step, in step order. */
  function StepLabels(steps: seq<string>): (labels: seq<string>)
    ensures |labels| == |steps|
  {
    seq(|steps|, k requires 0 <= k < |steps| => StepLabel(k, steps[k]))
  }

  /** Reads a label back into its step number and its step text. */
  function ParseLabel(line: string): Option<(nat, string)>
  {
    if |line| < |StepWord| || line[..|StepWord|] != StepWord then None
    else
      var rest := line[|StepWord|..];
      var digits := LeadingDigits(rest);
      var after := rest[|digits|..];
      if digits == [] || |after| < 2 || after[..2] != LabelColon then None
      else Some((ParseDecimal(digits), after[2..]))
  }

  /** A label built from a number and a text reads back as that number and that text. */
  lemma LabelReadBack(n: nat, step: string)
    ensures ParseLabel(StepWord + Decimal(n) + LabelColon + step) == Some((n, step))
  {
    var line := StepWord + Decimal(n) + LabelColon + step;
    var digits := Decimal(n);
    assert line == StepWord + (digits + (LabelColon + step));
    var rest := line[|StepWord|..];
    assert rest == digits + (LabelColon + step);
    assert line[..|StepWord|] == StepWord;
    LeadingDigitsOf(digits, LabelColon + step);
    assert LeadingDigits(rest) == digits;
    var after := rest[|digits|..];
    assert after == LabelColon + step;
    assert after[..2] == LabelColon && after[2..] == step;
    DecimalRoundTrip(n);
  }

  /** The labels are numbered 1, 2, ... in order, and label `k` carries step `k`. */
  lemma StepLabelsNumbered(steps: seq<string>, k: nat)
    requires k < |steps|
    ensures ParseLabel(StepLabels(steps)[k]) == Some((k + 1, steps[k]))
  {
    assert StepLabels(steps)[k] == StepLabel(k, steps[k]);
  }
}
