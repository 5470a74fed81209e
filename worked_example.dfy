/** The worked example of the notation: one data line, its seven fields and
    its frame. */
module Examples {
  import opened PyStr
  import opened Laban
  import opened Converter

  const RawFields := ["00:01 ", " s8-v> ", " ..... ", " X---- ", " g4_!< ", " s8-v> ", " ....."]
  const Line := RawFields[0] + "|" + RawFields[1] + "|" + RawFields[2] + "|" + RawFields[3] + "|"
                + RawFields[4] + "|" + RawFields[5] + "|" + RawFields[6]
  const Expected := Frame("00:01",
    Posture(Support, Forward, Middle, Flexed, Outward), Hold, Neutral,
    Posture(Gesture, Left, Low, Extended, Inward),
    Posture(Support, Forward, Middle, Flexed, Outward), Hold)
  const CleanFields := ["00:01", "s8-v>", ".....", "X----", "g4_!<", "s8-v>", "....."]

  /** The line splits into seven fields at its six pipes. */
  lemma ExampleSplit()
    ensures Split(Line, Pipe) == RawFields
  {
    assert Join(RawFields, Pipe) == Line;
    SplitJoin(RawFields, Pipe);
  }

  /** The stripped fields decode to the expected frame. */
  lemma ExampleFrame()
    ensures BuildFrame(CleanFields) == Ok(Expected)
  {
  }

  /** Stripping each field leaves its code. */
  lemma ExampleStripField(k: nat)
    requires k < 7
    ensures Strip(RawFields[k]) == CleanFields[k]
  {
    var i := if k == 0 then 0 else 1;
    assert PaddedAt(RawFields[k], CleanFields[k], i);
    StripUnique(RawFields[k], CleanFields[k]);
  }

  lemma ExampleParts()
    ensures Parts(Line) == CleanFields
  {
    ExampleSplit();
    forall k | 0 <= k < 7 ensures Parts(Line)[k] == CleanFields[k] {
      ExampleStripField(k);
    }
  }

  /** The line is already stripped and is a data line. */
  lemma ExampleClean()
    ensures Strip(Line) == Line && !IsSkipped(Line)
  {
    assert Line[0] == '0' && Line[|Line| - 1] == '.';
    assert PaddedAt(Line, Line, 0);
    StripUnique(Line, Line);
    assert Line[..1][0] == Line[..2][0] == Line[..4][0] == '0';
  }

  /** The whole line yields the expected frame. */
  lemma ExampleLine()
    ensures ReadLine(Line) == Emit(Expected)
  {
    ExampleClean();
    ExampleParts();
    ExampleFrame();
  }

  const Header := "TIME" + " | L_ARM | L_LEG | TRUNK | R_LEG | R_ARM | HEAD"
  const Comment := "//" + " note"

  lemma HeaderSkipped()
    ensures ReadLine(Header) == Skip
  {
    assert Header[0] == 'T' && Header[|Header| - 1] == 'D';
    assert PaddedAt(Header, Header, 0);
    StripUnique(Header, Header);
    assert Header[..4] == "TIME";
  }

  lemma CommentSkipped()
    ensures ReadLine(Comment) == Skip
  {
    assert Comment[0] == '/' && Comment[|Comment| - 1] == 'e';
    assert PaddedAt(Comment, Comment, 0);
    StripUnique(Comment, Comment);
    assert Comment[..2] == "//";
  }

  const ShortFields := ["00:02 ", " s8-v> ", " ..... ", " X---- ", " g4_!<"]
  const ShortLine := ShortFields[0] + "|" + ShortFields[1] + "|" + ShortFields[2] + "|"
                     + ShortFields[3] + "|" + ShortFields[4]

  /** A data line of only five fields yields no frame and no error. */
  lemma ShortLineSkipped()
    ensures ReadLine(ShortLine) == Skip
  {
    assert ShortLine[0] == '0' && ShortLine[|ShortLine| - 1] == '<';
    assert PaddedAt(ShortLine, ShortLine, 0);
    StripUnique(ShortLine, ShortLine);
    assert Join(ShortFields, Pipe) == ShortLine;
    SplitJoin(ShortFields, Pipe);
  }

  /** A small score: header, comment, blank line and one data line. */
  const Score := [Header, Comment, "", Line]

  lemma BlankSkipped()
    ensures ReadLine("") == Skip
  {
    assert PaddedAt("", "", 0);
    StripUnique("", "");
  }

  /** The score's lines contribute nothing, nothing, nothing, then the frame. */
  lemma ScoreOutcomes()
    ensures Outcomes(Score) == [Skip, Skip, Skip, Emit(Expected)]
  {
    var outs := Outcomes(Score);
    forall i | 0 <= i < 4 ensures outs[i] == [Skip, Skip, Skip, Emit(Expected)][i] {
      OutcomeAt(Score, i);
      if i == 0 { HeaderSkipped(); }
      else if i == 1 { CommentSkipped(); }
      else if i == 2 { BlankSkipped(); }
      else { ExampleLine(); }
    }
    OutcomeAt(Score, 0);
  }

  /** Three skipped lines and one frame give a one-frame score. */
  lemma CollectOneFrame(f: Frame)
    ensures Collect([Skip, Skip, Skip, Emit(f)]) == Ok([f])
  {
    var skips: seq<LineOutcome> := [Skip, Skip, Skip];
    assert Collect(skips[..2][..1]) == Ok([]) by {
      assert skips[..2][..1] == [Skip] && [Skip][..0] == [];
    }
    assert Collect(skips[..2]) == Ok([]);
    assert Collect(skips) == Ok([]);
    var outs := [Skip, Skip, Skip, Emit(f)];
    assert outs[..|outs| - 1] == skips && outs[|outs| - 1] == Emit(f);
    assert [] + [f] == [f];
  }

  /** The whole score converts to the one frame of its data line. */
  lemma ExampleScore()
    ensures Convert(Score) == Ok([Expected])
  {
    ScoreOutcomes();
    CollectOneFrame(Expected);
  }
}
