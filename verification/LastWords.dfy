/** Switches set over time: what counts is the last word that was not silence. */
module LastWords {
  datatype Word = On | Off | Silent

  /** Someone said `On`, and nobody said `Off` after that. */
  ghost predicate LastlyOn(ws: seq<Word>) {
    exists k :: 0 <= k < |ws| && ws[k] == On && forall j :: k < j < |ws| ==> ws[j] != Off
  }

  lemma OneMoreWord(ws: seq<Word>, w: Word)
    ensures LastlyOn(ws + [w]) <==> w == On || (LastlyOn(ws) && w == Silent)
  {
    var more := ws + [w];
    if w == On {
      assert more[|ws|] == On;
    }
    if LastlyOn(ws) && w == Silent {
      var k :| 0 <= k < |ws| && ws[k] == On && forall j :: k < j < |ws| ==> ws[j] != Off;
      assert more[k] == On;
    }
    if LastlyOn(more) {
      var k :| 0 <= k < |more| && more[k] == On && forall j :: k < j < |more| ==> more[j] != Off;
      if k < |ws| {
        assert ws[k] == On && more[|ws|] == w;
        assert forall j :: k < j < |ws| ==> ws[j] == more[j];
      }
    }
  }
}
