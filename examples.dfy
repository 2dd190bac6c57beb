/** Worked examples of the formatters, the tag hash, the scaler's info text
    and the notebook order, on concrete inputs. */
module Examples {
  import opened Options
  import opened NumberText
  import Utils
  import Scaling
  import RecipeLoader
  import opened RecipeData

  lemma WholeQuantity()
    ensures Utils.QuantityText(Some(4.0), Some("cups"), None) == "4 cups"
  {
    assert IntText(4) == "4";
  }

  lemma NoQuantity(unit: Option<string>, numMax: Option<real>)
    ensures Utils.QuantityText(None, unit, numMax) == ""
  {
  }

  lemma HalfCup()
    ensures Utils.QuantityText(Some(0.5), Some("cup"), None) == "\U{00BD} cup"
  {
    Utils.GlyphQuantityText(0.5, 4);
  }

  lemma OneAndAHalf()
    ensures Utils.QuantityText(Some(1.5), None, None) == "1\U{00BD}"
  {
    Utils.GlyphQuantityText(1.5, 4);
    assert IntText(1) == "1";
  }

  lemma WholeRange()
    ensures Utils.QuantityText(Some(2.0), Some("cup"), Some(3.0)) == "2\U{2013}3 cup"
  {
    assert IntText(2) == "2" && IntText(3) == "3";
  }

  lemma EmptyUnit()
    ensures Utils.QuantityText(Some(4.0), Some(""), None) == "4"
  {
    assert IntText(4) == "4";
  }

  /** 0.19 is 0.06 from a quarter and 0.065 from an eighth: no glyph. */
  lemma NoGlyph()
    ensures Utils.QuantityText(Some(0.19), None, None) == "0.19"
  {
    NoGlyphAt(0.19);
  }

  lemma NoGlyphAt(x: real)
    requires x == 0.19
    ensures Utils.QuantityText(Some(x), None, None) == "0.19"
  {
    NoGlyphIsDecimal(x);
    NoGlyphDigits(x);
  }

  lemma NoGlyphIsDecimal(x: real)
    requires x == 0.19
    ensures Utils.SingleText(x) == DecimalText(x)
  {
    assert x.Floor == 0;
    forall j | 0 <= j < |Utils.FRACTIONS|
      ensures Utils.Distance(x - 0.0, Utils.FRACTIONS[j].0) >= Utils.TOLERANCE
    {
    }
    Utils.DecimalQuantityText(x);
  }

  lemma NoGlyphDigits(x: real)
    requires x == 0.19
    ensures DecimalText(x) == "0.19"
  {
    DecimalTextCanonical(x);
    var k := Hundredths(x);
    assert -0.5 < k as real - 19.0 <= 0.5;
    assert k == 19;
    assert HundredthsText(19) == "0.19" by {
      assert NatText(0) == "0";
    }
  }

  lemma Times()
    ensures Utils.FormatTime(45) == "45 min"
    ensures Utils.FormatTime(120) == "2h"
    ensures Utils.FormatTime(230) == "3h 50m"
  {
    assert IntText(45) == "45" && IntText(2) == "2" && IntText(3) == "3" && IntText(50) == "50";
  }

  lemma TagColors()
    ensures Utils.TagColorIndex("") == 0
    ensures Utils.TagColorIndex("a") == 7
  {
    assert Utils.CodeUnits("a") == [97];
  }

  lemma ScaledUpInfo()
    ensures Scaling.InfoText(Scaling.Factor(4, 5), 4, 5, None) == "Scaled up from 4 to 5"
    ensures Scaling.InfoText(Scaling.Factor(4, 4), 4, 4, None) == "Base recipe: 4 servings"
  {
    assert IntText(4) == "4" && IntText(5) == "5";
  }

  /** Newest first; the two entries of date 1 keep their recorded order. */
  lemma NotebookOrder()
    ensures RecipeLoader.SortedLog([LogEntry(1, "a"), LogEntry(3, "b"), LogEntry(1, "c")])
      == [LogEntry(3, "b"), LogEntry(1, "a"), LogEntry(1, "c")]
  {
    var a, b, c := LogEntry(1, "a"), LogEntry(3, "b"), LogEntry(1, "c");
    var log := [a, b, c];
    assert log[..2] == [a, b] && [a, b][..1] == [a] && [a][..0] == [];
    assert RecipeLoader.SortedLog([a]) == RecipeLoader.Insert([], a) == [a];
    assert RecipeLoader.SortedLog([a, b]) == RecipeLoader.Insert([a], b) == [b, a];
    assert [b, a][1..] == [a] && [a][1..] == [];
    assert RecipeLoader.Insert([a], c) == [a, c];
    assert RecipeLoader.Insert([b, a], c) == [b, a, c];
  }
}
