/** The font fix-up run on a freshly built subtitle file
    (`SubtitleEncoder.SetAssFont`): every ",Arial," in the text becomes
    ",Arial Unicode MS,", and the file is rewritten only when that changed
    the text. Reading and writing keep the file's own encoding and are not
    modelled; the decision and the new text are. */
module AssFont {
  import opened DotNet

  const ArialField: string := ",Arial,"
  const UnicodeArialField: string := ",Arial Unicode MS,"

  /** What `SetAssFont` does to the file: nothing, or rewrite it with `text`. */
  datatype FontFix = Unchanged | Rewrite(text: string)

  /** The text after the replacement. */
  function ReplaceArial(text: string): string {
    Replace(text, ArialField, UnicodeArialField)
  }

  /** `SetAssFont` on a file holding `text`: the file is rewritten exactly
      when ",Arial," occurs in it, and then with the replaced text. */
  function SetAssFont(text: string): (r: FontFix)
    ensures r.Rewrite? <==> Contains(text, ArialField)
    ensures r.Rewrite? ==> r.text == ReplaceArial(text) && r.text != text
  {
    ReplaceChangesIffContains(text, ArialField, UnicodeArialField, 6);
    var newText := ReplaceArial(text);
    if newText != text then Rewrite(newText) else Unchanged
  }

  /** The file's text once `SetAssFont` has run. */
  function TextAfter(text: string): (r: string)
    ensures r == ReplaceArial(text)
    ensures r == text <==> !Contains(text, ArialField)
  {
    match SetAssFont(text)
    case Rewrite(t) => t
    case Unchanged => text
  }

  /** The fix-up is not idempotent: ",Arial,Arial," shares its middle comma
      between two fields, so the first pass replaces only the first, and a
      second pass finds ",Arial," again and rewrites the file once more. */
  lemma NotIdempotent()
    ensures TextAfter(",Arial,Arial,") == ",Arial Unicode MS,Arial,"
    ensures SetAssFont(TextAfter(",Arial,Arial,")).Rewrite?
  {
    var s := ",Arial,Arial,";
    assert s[..7] == ArialField;
    assert s[7..] == "Arial,";
    assert Replace("Arial,", ArialField, UnicodeArialField) == "Arial," by {
      assert !Contains("Arial,", ArialField);
      ReplaceChangesIffContains("Arial,", ArialField, UnicodeArialField, 6);
    }
    var t := ",Arial Unicode MS,Arial,";
    assert t[17..24] == ArialField;
    assert OccursAt(t, ArialField, 17);
  }
}
