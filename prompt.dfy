/** The final prompt the editor sends (`constructFinalPrompt`): the base prompt, then a clause
    for the generation mode and one for the resolution, each only when it is set. */
module FinalPrompt {
  import opened JsStrings

  /** The generation mode that adds no clause. */
  const DefaultMode: string := "Default"

  /** `a <mode, lower-cased> style`. */
  function ModeText(mode: string): string {
    "a " + ToLower(mode) + " style"
  }

  /** `in <resolution> resolution`. */
  function ResolutionText(resolution: string): string {
    "in " + resolution + " resolution"
  }

  /** The mode clause, for a mode that is set and is not the default. */
  function ModeClause(mode: string): seq<string> {
    if mode != "" && mode != DefaultMode then [ModeText(mode)] else []
  }

  /** The resolution clause, for a resolution that is set. */
  function ResolutionClause(resolution: string): seq<string> {
    if resolution != "" then [ResolutionText(resolution)] else []
  }

  /** The clauses in the order they are pushed: mode first, then resolution. */
  function Additions(mode: string, resolution: string): seq<string> {
    ModeClause(mode) + ResolutionClause(resolution)
  }

  /** The prompt before trimming: the base, then `", "` and the clauses joined by `", "`. */
  function Untrimmed(base: string, mode: string, resolution: string): string {
    var additions := Additions(mode, resolution);
    if |additions| > 0 then base + ", " + Join(additions, ", ") else base
  }

  function Build(base: string, mode: string, resolution: string): string {
    Trim(Untrimmed(base, mode, resolution))
  }

  /** The four shapes of the prompt before trimming: each clause appears exactly when its
      option is set, the mode clause before the resolution clause, each after `", "`. */
  lemma UntrimmedCases(base: string, mode: string, resolution: string)
    ensures var hasMode := mode != "" && mode != DefaultMode;
      var hasResolution := resolution != "";
      Untrimmed(base, mode, resolution) ==
        if hasMode && hasResolution then base + ", " + ModeText(mode) + ", " + ResolutionText(resolution)
        else if hasMode then base + ", " + ModeText(mode)
        else if hasResolution then base + ", " + ResolutionText(resolution)
        else base
  {
    var hasMode := mode != "" && mode != DefaultMode;
    var hasResolution := resolution != "";
    var m, r := ModeText(mode), ResolutionText(resolution);
    if hasMode && hasResolution {
      assert Additions(mode, resolution) == [m, r];
      assert Join([m, r], ", ") == m + ", " + r by {
        assert [m, r][1..] == [r];
      }
      assert base + ", " + (m + ", " + r) == base + ", " + m + ", " + r;
    } else if hasMode {
      assert Additions(mode, resolution) == [m];
    } else if hasResolution {
      assert Additions(mode, resolution) == [r];
    } else {
      assert Additions(mode, resolution) == [];
    }
  }

  /** With the default options the final prompt is the trimmed base prompt. */
  lemma BuildDefault(base: string)
    ensures Build(base, DefaultMode, "") == Trim(base)
  {
    UntrimmedCases(base, DefaultMode, "");
  }

  /** When a clause is added, trimming only touches the front: the prompt ends with the clauses
      exactly as built. */
  lemma BuildEndsWithClauses(base: string, mode: string, resolution: string)
    requires Additions(mode, resolution) != []
    ensures Build(base, mode, resolution) == TrimStart(Untrimmed(base, mode, resolution))
  {
    UntrimmedCases(base, mode, resolution);
    var u := Untrimmed(base, mode, resolution);
    if resolution != "" {
      var t := ResolutionText(resolution);
      assert u[|u| - 1] == t[|t| - 1] == 'n';
    } else {
      var t := ModeText(mode);
      assert u[|u| - 1] == t[|t| - 1] == 'e';
    }
    TrimKeepsEnd(u);
  }

  /** An example: a cinematic, 4K painting. */
  lemma PaintingExample()
    ensures Build("Make it look like a painting", "Cinematic", "4K")
            == "Make it look like a painting" + ", " + ("a " + "cinematic" + " style") + ", " + ("in " + "4K" + " resolution")
  {
    PaintingUntrimmed();
    PaintingTrimmed();
  }

  lemma PaintingUntrimmed()
    ensures Untrimmed("Make it look like a painting", "Cinematic", "4K")
            == "Make it look like a painting" + ", " + ("a " + "cinematic" + " style") + ", " + ("in " + "4K" + " resolution")
  {
    LowerCinematic();
    assert "Cinematic" != DefaultMode by {
      assert |"Cinematic"| != |DefaultMode|;
    }
    UntrimmedCases("Make it look like a painting", "Cinematic", "4K");
  }

  lemma PaintingTrimmed()
    ensures var u := "Make it look like a painting" + ", " + ("a " + "cinematic" + " style") + ", " + ("in " + "4K" + " resolution");
      Trim(u) == u
  {
    var u := "Make it look like a painting" + ", " + ("a " + "cinematic" + " style") + ", " + ("in " + "4K" + " resolution");
    var t := "in " + "4K" + " resolution";
    assert u[0] == 'M';
    assert u[|u| - 1] == t[|t| - 1] == 'n';
    TrimOfTrimmed(u);
  }

  lemma LowerCinematic()
    ensures ToLower("Cinematic") == "cinematic"
  {
    var lower := ToLower("Cinematic");
    assert lower[0] == LowerChar('C') == 'c';
    assert forall i :: 1 <= i < 9 ==> lower[i] == "Cinematic"[i];
  }
}
