/** The body of `convert_file` without the file I/O: input lines become an
    ordered score of frames. */
module Converter {
  import opened PyStr
  import opened Laban

  /** One timestamp and the six decoded body parts, in the fixed order of
      the notation's columns. */
  datatype Frame = Frame(
    timestamp: string,
    leftArm: Descriptor,
    leftLeg: Descriptor,
    trunk: Descriptor,
    rightLeg: Descriptor,
    rightArm: Descriptor,
    head: Descriptor)

  /** What one input line contributes: nothing, one frame, or the decoder's
      error, which ends the whole conversion. */
  datatype LineOutcome = Skip | Emit(frame: Frame) | Crash(error: DecodeError)

  const Pipe: char := '|'

  /** A stripped line that is a blank, header, separator or comment line. */
  predicate IsSkipped(clean: string) {
    clean == [] || StartsWith(clean, "TIME") || StartsWith(clean, "=") || StartsWith(clean, "//")
  }

  /** `[p.strip() for p in clean.split('|')]`. */
  function Parts(clean: string): (ps: seq<string>)
    ensures |ps| == Count(clean, Pipe) + 1 == |Split(clean, Pipe)|
    ensures forall k :: 0 <= k < |ps| ==> ps[k] == Strip(Split(clean, Pipe)[k])
    ensures forall k :: 0 <= k < |ps| ==> Pipe !in ps[k] && Trimmed(ps[k])
  {
    var fields := Split(clean, Pipe);
    seq(|fields|, k requires 0 <= k < |fields| => Strip(fields[k]))
  }

  /** The frame of a line with at least seven parts; the first block, in
      column order, that does not decode is the error. Parts after the
      seventh are not read. */
  function BuildFrame(parts: seq<string>): (r: Result<Frame>)
    requires |parts| >= 7
    ensures r.Ok? <==> forall k :: 1 <= k < 7 ==> ParseBlock(parts[k]).Ok?
    ensures r.Ok? ==>
              && r.value.timestamp == parts[0]
              && Ok(r.value.leftArm) == ParseBlock(parts[1])
              && Ok(r.value.leftLeg) == ParseBlock(parts[2])
              && Ok(r.value.trunk) == ParseBlock(parts[3])
              && Ok(r.value.rightLeg) == ParseBlock(parts[4])
              && Ok(r.value.rightArm) == ParseBlock(parts[5])
              && Ok(r.value.head) == ParseBlock(parts[6])
    ensures r.Err? ==>
              exists k :: 1 <= k < 7 && ParseBlock(parts[k]) == Err(r.error) && DecodesBefore(parts, k)
  {
    var leftArm :- ParseBlock(parts[1]);
    var leftLeg :- ParseBlock(parts[2]);
    var trunk :- ParseBlock(parts[3]);
    var rightLeg :- ParseBlock(parts[4]);
    var rightArm :- ParseBlock(parts[5]);
    var head :- ParseBlock(parts[6]);
    Ok(Frame(parts[0], leftArm, leftLeg, trunk, rightLeg, rightArm, head))
  }

  /** No block before column `k` fails to decode. */
  predicate DecodesBefore(parts: seq<string>, k: nat)
    requires k <= |parts|
  {
    forall j :: 1 <= j < k ==> ParseBlock(parts[j]).Ok?
  }

  /** A line yields a frame exactly when, once stripped, it is not a blank,
      header, separator or comment line and holds at least six pipes. */
  predicate Accepted(line: string) {
    !IsSkipped(Strip(line)) && Count(Strip(line), Pipe) >= 6
  }

  /** A built frame is emitted; a decoding error escapes the loop. */
  function FrameOutcome(r: Result<Frame>): LineOutcome {
    match r
    case Ok(frame) => Emit(frame)
    case Err(e) => Crash(e)
  }

  /** One iteration of the loop over the lines. */
  function ReadLine(line: string): (r: LineOutcome)
    ensures r.Skip? <==> !Accepted(line)
    ensures Accepted(line) ==>
              |Parts(Strip(line))| >= 7 && r == FrameOutcome(BuildFrame(Parts(Strip(line))))
  {
    var clean := Strip(line);
    if IsSkipped(clean) then Skip
    else
      var parts := Parts(clean);
      if |parts| < 7 then Skip else FrameOutcome(BuildFrame(parts))
  }

  /** What each line contributes, line by line. */
  function Outcomes(lines: seq<string>): seq<LineOutcome> {
    seq(|lines|, i requires 0 <= i < |lines| => ReadLine(lines[i]))
  }

  /** The score the loop has built after `outs`, or the first error. */
  function Collect(outs: seq<LineOutcome>): Result<seq<Frame>>
  {
    if outs == [] then Ok([])
    else
      var score :- Collect(outs[..|outs| - 1]);
      match outs[|outs| - 1]
      case Skip => Ok(score)
      case Emit(frame) => Ok(score + [frame])
      case Crash(e) => Err(e)
  }

  /** The score built from `lines`, or the error of the first line whose
      blocks do not decode. */
  function Convert(lines: seq<string>): Result<seq<Frame>> {
    Collect(Outcomes(lines))
  }

  /** The loop of `convert_file`: each accepted line's frame is appended to
      the score; an undecodable block aborts the conversion. */
  method ConvertLines(lines: seq<string>) returns (result: Result<seq<Frame>>)
    ensures result == Convert(lines)
  {
    ghost var outs := Outcomes(lines);
    var score: seq<Frame> := [];
    for i := 0 to |lines|
      invariant Collect(outs[..i]) == Ok(score)
    {
      assert outs[..i + 1][..i] == outs[..i];
      var clean := Strip(lines[i]);
      if IsSkipped(clean) {
        continue;
      }
      var parts := Parts(clean);
      if |parts| < 7 {
        continue;
      }
      var frame := BuildFrame(parts);
      if frame.Err? {
        assert outs[i] == Crash(frame.error);
        result := Err(frame.error);
        CollectStopsAtCrash(outs, i + 1);
        return;
      }
      assert outs[i] == Emit(frame.value);
      score := score + [frame.value];
    }
    assert outs[..|lines|] == outs;
    result := Ok(score);
  }

  /** Once a prefix fails, the whole conversion fails with its error. */
  lemma {:induction false} CollectStopsAtCrash(outs: seq<LineOutcome>, n: nat)
    requires n <= |outs| && Collect(outs[..n]).Err?
    ensures Collect(outs) == Collect(outs[..n])
    decreases |outs| - n
  {
    if n < |outs| {
      assert outs[..n + 1][..n] == outs[..n];
      CollectStopsAtCrash(outs, n + 1);
    } else {
      assert outs[..n] == outs;
    }
  }

  /** The frames emitted by `outs`, in order. */
  function Frames(outs: seq<LineOutcome>): seq<Frame> {
    if outs == [] then []
    else (if outs[0].Emit? then [outs[0].frame] else []) + Frames(outs[1..])
  }

  predicate NoCrash(outs: seq<LineOutcome>) {
    forall i :: 0 <= i < |outs| ==> !outs[i].Crash?
  }

  /** The frames of two runs of lines are the frames of the first, then
      those of the second. */
  lemma {:induction false} FramesAppend(a: seq<LineOutcome>, b: seq<LineOutcome>)
    ensures Frames(a + b) == Frames(a) + Frames(b)
  {
    if a == [] {
      assert a + b == b;
    } else {
      assert (a + b)[0] == a[0] && (a + b)[1..] == a[1..] + b;
      FramesAppend(a[1..], b);
    }
  }

  /** When nothing fails to decode, the score holds the emitted frames in
      order. */
  lemma {:induction false} CollectWithoutCrash(outs: seq<LineOutcome>)
    requires NoCrash(outs)
    ensures Collect(outs) == Ok(Frames(outs))
  {
    if outs != [] {
      var n := |outs| - 1;
      var init, last := outs[..n], outs[n];
      assert NoCrash(init) by {
        forall i | 0 <= i < n ensures !init[i].Crash? {
          assert init[i] == outs[i];
        }
      }
      CollectWithoutCrash(init);
      assert outs == init + [last];
      FramesAppend(init, [last]);
      assert [last][1..] == [];
      var tail := if last.Emit? then [last.frame] else [];
      assert Frames([last]) == tail;
      assert Frames(init) + [] == Frames(init);
    }
  }

  /** The conversion fails with the error of the first crash. */
  lemma {:induction false} CollectFirstCrash(outs: seq<LineOutcome>, i: nat)
    requires i < |outs| && outs[i].Crash? && NoCrash(outs[..i])
    ensures Collect(outs) == Err(outs[i].error)
  {
    assert outs[..i + 1][..i] == outs[..i];
    CollectWithoutCrash(outs[..i]);
    CollectStopsAtCrash(outs, i + 1);
  }

  /** Outcomes are computed line by line, so they follow the input order. */
  lemma OutcomesAppend(a: seq<string>, b: seq<string>)
    ensures Outcomes(a + b) == Outcomes(a) + Outcomes(b)
  {
    var l, r := Outcomes(a + b), Outcomes(a) + Outcomes(b);
    forall i | 0 <= i < |a + b| ensures l[i] == r[i] {
      OutcomeAt(a + b, i);
      if i < |a| {
        OutcomeAt(a, i);
      } else {
        OutcomeAt(b, i - |a|);
      }
    }
    assert |l| == |a + b| == |r| by {
      if a + b != [] {
        OutcomeAt(a + b, 0);
      }
    }
  }

  lemma OutcomeAt(lines: seq<string>, i: nat)
    requires i < |lines|
    ensures |Outcomes(lines)| == |lines| && Outcomes(lines)[i] == ReadLine(lines[i])
  {
  }

  /** When no block fails to decode, the score is exactly the frames of the
      accepted lines, one per accepted line, in input order. */
  lemma ConvertWithoutCrash(lines: seq<string>)
    requires forall i :: 0 <= i < |lines| ==> !ReadLine(lines[i]).Crash?
    ensures Convert(lines) == Ok(Frames(Outcomes(lines)))
  {
    CollectWithoutCrash(Outcomes(lines));
  }

  /** A frame's timestamp is the stripped first field and its six body parts
      are the decodings of the stripped fields 1 to 6, in column order. */
  lemma EmittedFrame(line: string)
    requires ReadLine(line).Emit?
    ensures var parts, f := Parts(Strip(line)), ReadLine(line).frame;
      && |parts| >= 7
      && f.timestamp == parts[0]
      && [Ok(f.leftArm), Ok(f.leftLeg), Ok(f.trunk), Ok(f.rightLeg), Ok(f.rightArm), Ok(f.head)]
         == [ParseBlock(parts[1]), ParseBlock(parts[2]), ParseBlock(parts[3]),
             ParseBlock(parts[4]), ParseBlock(parts[5]), ParseBlock(parts[6])]
  {
  }

  /** Fields after the seventh never change what a line contributes. */
  lemma ExtraFieldsIgnored(l1: string, l2: string)
    requires Accepted(l1) && Accepted(l2)
    requires Parts(Strip(l1))[..7] == Parts(Strip(l2))[..7]
    ensures ReadLine(l1) == ReadLine(l2)
  {
    var p1, p2 := Parts(Strip(l1)), Parts(Strip(l2));
    BuildFrameReadsSeven(p1, p2);
    assert ReadLine(l1) == FrameOutcome(BuildFrame(p1));
    assert ReadLine(l2) == FrameOutcome(BuildFrame(p2));
  }

  /** BuildFrame reads the first seven parts and nothing else. */
  lemma BuildFrameReadsSeven(p1: seq<string>, p2: seq<string>)
    requires |p1| >= 7 && |p2| >= 7 && p1[..7] == p2[..7]
    ensures BuildFrame(p1) == BuildFrame(p2)
  {
    assert forall k :: 0 <= k < 7 ==> p1[k] == p1[..7][k] == p2[..7][k] == p2[k];
  }

  /** A field of nothing but whitespace is stripped to the empty string,
      which is not a hold: reading its first position fails. */
  lemma BlankFieldFails(field: string)
    requires SpacesBetween(field, 0, |field|)
    ensures ParseBlock(Strip(field)) == Err(IndexOutOfRange(0))
  {
  }

  /** Every field reaches the decoder stripped, so the all-spaces spelling of
      a hold can never match there. */
  lemma SpacesHoldUnreachable(line: string, k: nat)
    requires k < |Parts(Strip(line))|
    ensures Parts(Strip(line))[k] != HoldSpaces
  {
    var p := Parts(Strip(line))[k];
    assert Trimmed(p);
    assert HoldSpaces[0] == ' ';
  }
}
