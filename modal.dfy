/** The dialog that creates or edits a style: the fields it starts from, the thumbnail it can
    ask the model for, and the template it hands back on save. */
module TemplateModal {
  import opened Wrappers
  import opened JsStrings
  import opened TemplateList
  import GeminiService

  const ValidationMessage: string := "Style Name and Prompt cannot be empty."
  const PlaceholderPrefix: string := "https://picsum.photos/seed/"
  const PlaceholderSuffix: string := "/200"

  /** The characters `[a-z0-9]` keeps. */
  predicate IsSlugChar(c: char) {
    ('a' <= c <= 'z') || ('0' <= c <= '9')
  }

  /** The characters a slug is made of. */
  predicate IsIdChar(c: char) {
    IsSlugChar(c) || c == '_'
  }

  /** `s` with its leading run of characters outside `[a-z0-9]` removed. */
  function DropRun(s: string): (r: string)
    ensures |r| <= |s| && r == s[|s| - |r|..]
    ensures r != [] ==> IsSlugChar(r[0])
    ensures s != [] && !IsSlugChar(s[0]) ==> |r| < |s|
  {
    if s != [] && !IsSlugChar(s[0]) then DropRun(s[1..]) else s
  }

  /** `s.replace(/[^a-z0-9]+/g, '_')`: every maximal run of other characters becomes one `_`. */
  function ReplaceRuns(s: string): (r: string)
    ensures r == [] <==> s == []
    decreases |s|
  {
    if s == [] then []
    else if IsSlugChar(s[0]) then [s[0]] + ReplaceRuns(s[1..])
    else "_" + ReplaceRuns(DropRun(s))
  }

  /** The replacement starts with the first character when that one is kept, with `_`
      otherwise. */
  lemma ReplaceRunsHead(s: string)
    requires s != []
    ensures IsSlugChar(s[0]) ==> ReplaceRuns(s)[0] == s[0]
    ensures !IsSlugChar(s[0]) ==> ReplaceRuns(s)[0] == '_'
  {
  }

  /** Only `[a-z0-9_]`. */
  predicate IdChars(s: string) {
    forall i :: 0 <= i < |s| ==> IsIdChar(s[i])
  }

  /** No two `_` in a row. */
  predicate NoDoubleUnderscore(s: string) {
    forall i :: 0 <= i < |s| - 1 ==> !(s[i] == '_' && s[i + 1] == '_')
  }

  lemma IdCharsCons(c: char, r: string)
    requires IsIdChar(c) && IdChars(r)
    ensures IdChars([c] + r)
  {
    var cr := [c] + r;
    assert forall i :: 1 <= i < |cr| ==> cr[i] == r[i - 1];
  }

  lemma NoDoubleCons(c: char, r: string)
    requires NoDoubleUnderscore(r)
    requires c == '_' && r != [] ==> r[0] != '_'
    ensures NoDoubleUnderscore([c] + r)
  {
    var cr := [c] + r;
    assert forall i :: 1 <= i < |cr| ==> cr[i] == r[i - 1];
  }

  /** The replacement is made of `[a-z0-9_]`. */
  lemma {:induction false} ReplaceRunsChars(s: string)
    ensures IdChars(ReplaceRuns(s))
    decreases |s|
  {
    if s != [] {
      if IsSlugChar(s[0]) {
        ReplaceRunsChars(s[1..]);
        IdCharsCons(s[0], ReplaceRuns(s[1..]));
      } else {
        ReplaceRunsChars(DropRun(s));
        IdCharsCons('_', ReplaceRuns(DropRun(s)));
      }
    }
  }

  /** The replacement has no two `_` in a row. */
  lemma {:induction false} ReplaceRunsNoDouble(s: string)
    ensures NoDoubleUnderscore(ReplaceRuns(s))
    decreases |s|
  {
    if s != [] {
      if IsSlugChar(s[0]) {
        ReplaceRunsNoDouble(s[1..]);
        NoDoubleCons(s[0], ReplaceRuns(s[1..]));
      } else {
        var rest := DropRun(s);
        ReplaceRunsNoDouble(rest);
        if rest != [] {
          ReplaceRunsHead(rest);
        }
        NoDoubleCons('_', ReplaceRuns(rest));
      }
    }
  }

  /** The replacement is made of `[a-z0-9_]` without two `_` in a row, and starts with the
      first character when that one is kept, with `_` otherwise. */
  lemma ReplaceRunsShape(s: string)
    ensures var r := ReplaceRuns(s);
      && IdChars(r) && NoDoubleUnderscore(r)
      && (s != [] && IsSlugChar(s[0]) ==> r[0] == s[0])
      && (s != [] && !IsSlugChar(s[0]) ==> r[0] == '_')
  {
    ReplaceRunsChars(s);
    ReplaceRunsNoDouble(s);
    if s != [] {
      ReplaceRunsHead(s);
    }
  }

  /** `s.replace(/_$/, '')`: one trailing `_` removed. */
  function StripTrailingUnderscore(s: string): string {
    if s != [] && s[|s| - 1] == '_' then s[..|s| - 1] else s
  }

  /** The identifier derived from a style name:
      `name.toLowerCase().trim().replace(/[^a-z0-9]+/g, '_').replace(/_$/, '')`. */
  function Slug(name: string): string {
    StripTrailingUnderscore(ReplaceRuns(Trim(ToLower(name))))
  }

  /** The letters and digits of `s`, in order. */
  function SlugChars(s: string): string {
    if s == [] then [] else (if IsSlugChar(s[0]) then [s[0]] else []) + SlugChars(s[1..])
  }

  /** A slug as `Slug` produces them: only `[a-z0-9_]`, no `__`, no trailing `_`. */
  predicate WellFormedSlug(s: string) {
    IdChars(s) && NoDoubleUnderscore(s) && (s != [] ==> s[|s| - 1] != '_')
  }

  lemma {:induction false} SlugCharsAppend(a: string, b: string)
    ensures SlugChars(a + b) == SlugChars(a) + SlugChars(b)
  {
    if a == [] {
      assert a + b == b;
    } else {
      var ab := a + b;
      assert ab[0] == a[0];
      assert ab[1..] == a[1..] + b;
      SlugCharsAppend(a[1..], b);
      var head := if IsSlugChar(a[0]) then [a[0]] else [];
      assert SlugChars(ab) == head + (SlugChars(a[1..]) + SlugChars(b));
      assert SlugChars(a) == head + SlugChars(a[1..]);
    }
  }

  /** A text without letters or digits contributes none. */
  lemma {:induction false} SlugCharsNone(s: string)
    requires forall i :: 0 <= i < |s| ==> !IsSlugChar(s[i])
    ensures SlugChars(s) == []
  {
    if s != [] {
      SlugCharsNone(s[1..]);
    }
  }

  /** Dropping a run of other characters keeps every letter and digit. */
  lemma {:induction false} DropRunKeepsSlugChars(s: string)
    ensures SlugChars(DropRun(s)) == SlugChars(s)
  {
    if s != [] && !IsSlugChar(s[0]) {
      DropRunKeepsSlugChars(s[1..]);
    }
  }

  /** Replacing runs keeps every letter and digit, in order. */
  lemma {:induction false} ReplaceRunsKeepsSlugChars(s: string)
    ensures SlugChars(ReplaceRuns(s)) == SlugChars(s)
    decreases |s|
  {
    if s != [] {
      if IsSlugChar(s[0]) {
        ReplaceRunsKeepsSlugChars(s[1..]);
        SlugCharsAppend([s[0]], ReplaceRuns(s[1..]));
      } else {
        ReplaceRunsKeepsSlugChars(DropRun(s));
        DropRunKeepsSlugChars(s);
        SlugCharsAppend("_", ReplaceRuns(DropRun(s)));
      }
    }
  }

  /** Removing leading white space keeps every letter and digit. */
  lemma {:induction false} TrimStartKeepsSlugChars(s: string)
    ensures SlugChars(TrimStart(s)) == SlugChars(s)
  {
    if s != [] && IsWhiteSpace(s[0]) {
      assert !IsSlugChar(s[0]);
      TrimStartKeepsSlugChars(s[1..]);
    }
  }

  /** Removing trailing white space keeps every letter and digit. */
  lemma {:induction false} TrimEndKeepsSlugChars(s: string)
    ensures SlugChars(TrimEnd(s)) == SlugChars(s)
  {
    if s != [] && IsWhiteSpace(s[|s| - 1]) {
      var init := s[..|s| - 1];
      assert s == init + [s[|s| - 1]];
      SlugCharsAppend(init, [s[|s| - 1]]);
      assert !IsSlugChar(s[|s| - 1]);
      TrimEndKeepsSlugChars(init);
    }
  }

  /** Trimming removes white space only, so it keeps every letter and digit. */
  lemma TrimKeepsSlugChars(s: string)
    ensures SlugChars(Trim(s)) == SlugChars(s)
  {
    TrimStartKeepsSlugChars(s);
    TrimEndKeepsSlugChars(TrimStart(s));
  }

  /** A text without upper-case ASCII letters is its own lower case. */
  lemma ToLowerOfLower(s: string)
    requires forall i :: 0 <= i < |s| ==> !('A' <= s[i] <= 'Z')
    ensures ToLower(s) == s
  {
  }

  /** Removing one trailing `_` from a replacement gives a well-formed slug. */
  lemma StripWellFormed(t: string)
    requires IdChars(t) && NoDoubleUnderscore(t)
    ensures WellFormedSlug(StripTrailingUnderscore(t))
  {
    if t != [] && t[|t| - 1] == '_' {
      var u := t[..|t| - 1];
      if u != [] {
        assert u[|u| - 1] == t[|t| - 2];
      }
    }
  }

  /** Removing one trailing `_` keeps every letter and digit. */
  lemma StripKeepsSlugChars(t: string)
    ensures SlugChars(StripTrailingUnderscore(t)) == SlugChars(t)
  {
    if t != [] && t[|t| - 1] == '_' {
      assert t == t[..|t| - 1] + "_";
      SlugCharsAppend(t[..|t| - 1], "_");
    }
  }

  /** A derived identifier is well formed and keeps exactly the letters and digits of the
      lower-cased name, in order. */
  lemma SlugShape(name: string)
    ensures WellFormedSlug(Slug(name))
    ensures SlugChars(Slug(name)) == SlugChars(ToLower(name))
  {
    var t := ReplaceRuns(Trim(ToLower(name)));
    ReplaceRunsShape(Trim(ToLower(name)));
    TrimKeepsSlugChars(ToLower(name));
    ReplaceRunsKeepsSlugChars(Trim(ToLower(name)));
    StripWellFormed(t);
    StripKeepsSlugChars(t);
  }

  /** The tail of a text of `[a-z0-9_]` without `__` is one as well. */
  lemma WellFormedTail(s: string)
    requires s != [] && IdChars(s) && NoDoubleUnderscore(s)
    ensures IdChars(s[1..]) && NoDoubleUnderscore(s[1..])
    ensures s[0] == '_' && |s| > 1 ==> IsSlugChar(s[1])
  {
    var t := s[1..];
    assert forall i :: 0 <= i < |t| ==> t[i] == s[i + 1];
  }

  /** A well-formed text is left as it is by the replacement. */
  lemma {:induction false} ReplaceRunsOfWellFormed(s: string)
    requires IdChars(s) && NoDoubleUnderscore(s)
    ensures ReplaceRuns(s) == s
    decreases |s|
  {
    if s != [] {
      WellFormedTail(s);
      ReplaceRunsOfWellFormed(s[1..]);
      if !IsSlugChar(s[0]) {
        assert DropRun(s) == DropRun(s[1..]);
        assert DropRun(s[1..]) == s[1..];
        assert ReplaceRuns(s) == "_" + s[1..];
        assert s == [s[0]] + s[1..];
      } else {
        assert ReplaceRuns(s) == [s[0]] + s[1..];
        assert s == [s[0]] + s[1..];
      }
    }
  }

  /** A well-formed slug is its own slug. */
  lemma WellFormedSlugFixed(w: string)
    requires WellFormedSlug(w)
    ensures Slug(w) == w
  {
    ToLowerOfLower(w);
    if w != [] {
      assert IsIdChar(w[0]) && IsIdChar(w[|w| - 1]);
    }
    TrimOfTrimmed(w);
    ReplaceRunsOfWellFormed(w);
  }

  /** Deriving the identifier of an identifier changes nothing. */
  lemma SlugIdempotent(name: string)
    ensures Slug(Slug(name)) == Slug(name)
  {
    SlugShape(name);
    WellFormedSlugFixed(Slug(name));
  }

  /** A leading letter or digit is kept as it is. */
  lemma ReplaceRunsSlugHead(c: char, b: string)
    requires IsSlugChar(c)
    ensures ReplaceRuns([c] + b) == [c] + ReplaceRuns(b)
  {
    assert ([c] + b)[1..] == b;
  }

  /** Letters and digits in front of the text are kept as they are. */
  lemma {:induction false} ReplaceRunsAfterSlugChars(a: string, b: string)
    requires forall i :: 0 <= i < |a| ==> IsSlugChar(a[i])
    ensures ReplaceRuns(a + b) == a + ReplaceRuns(b)
  {
    if a != [] {
      var c := a[0];
      var a' := a[1..];
      assert a + b == [c] + (a' + b);
      ReplaceRunsSlugHead(c, a' + b);
      ReplaceRunsAfterSlugChars(a', b);
      var tail := ReplaceRuns(b);
      assert ReplaceRuns(a + b) == [c] + (a' + tail);
      assert [c] + (a' + tail) == ([c] + a') + tail;
      assert a == [c] + a';
    } else {
      assert a + b == b;
    }
  }

  /** A text of letters and digits is kept as it is. */
  lemma ReplaceRunsOfSlugChars(b: string)
    requires forall i :: 0 <= i < |b| ==> IsSlugChar(b[i])
    ensures ReplaceRuns(b) == b
  {
    ReplaceRunsAfterSlugChars(b, []);
    assert b + [] == b;
  }

  /** A leading character outside `[a-z0-9]` belongs to the run that is dropped. */
  lemma DropRunPastOther(c: char, b: string)
    requires !IsSlugChar(c)
    ensures DropRun([c] + b) == DropRun(b)
  {
    assert ([c] + b)[1..] == b;
  }

  /** One character outside `[a-z0-9]` in front of a word becomes `_`. */
  lemma ReplaceRunsGapHead(c: char, b: string)
    requires forall i :: 0 <= i < |b| ==> IsSlugChar(b[i])
    requires !IsSlugChar(c)
    ensures ReplaceRuns([c] + b) == "_" + b
  {
    DropRunPastOther(c, b);
    assert b != [] ==> IsSlugChar(b[0]);
    assert DropRun(b) == b;
    ReplaceRunsOfSlugChars(b);
  }

  /** One character outside `[a-z0-9]` between two words becomes `_`. */
  lemma ReplaceRunsOneGap(a: string, c: char, b: string)
    requires forall i :: 0 <= i < |a| ==> IsSlugChar(a[i])
    requires forall i :: 0 <= i < |b| ==> IsSlugChar(b[i])
    requires !IsSlugChar(c)
    ensures ReplaceRuns(a + ([c] + b)) == a + ("_" + b)
  {
    ReplaceRunsAfterSlugChars(a, [c] + b);
    ReplaceRunsGapHead(c, b);
  }

  /** Two words of lower-case letters and digits separated by one other character are joined
      by `_`. */
  lemma TwoWordSlug(name: string, a: string, c: char, b: string)
    requires ToLower(name) == a + ([c] + b)
    requires a != [] && forall i :: 0 <= i < |a| ==> IsSlugChar(a[i])
    requires b != [] && forall i :: 0 <= i < |b| ==> IsSlugChar(b[i])
    requires !IsSlugChar(c)
    ensures Slug(name) == a + ("_" + b)
  {
    var lower := a + ([c] + b);
    assert lower[0] == a[0] && lower[|lower| - 1] == b[|b| - 1];
    TrimOfTrimmed(lower);
    ReplaceRunsOneGap(a, c, b);
    var joined := a + ("_" + b);
    assert joined[|joined| - 1] == b[|b| - 1];
  }

  /** "Neon Punk" becomes "neon_punk". */
  lemma NeonPunkSlug()
    ensures Slug("Neon Punk") == "neon_punk"
  {
    LowerNeonPunk();
    TwoWordSlug("Neon Punk", "neon", ' ', "punk");
    JoinNeonPunk();
  }

  lemma JoinNeonPunk()
    ensures "neon" + ("_" + "punk") == "neon_punk"
  {
  }

  lemma LowerNeonPunk()
    ensures ToLower("Neon Punk") == "neon" + ([' '] + "punk")
  {
    var lower := ToLower("Neon Punk");
    assert lower[0] == LowerChar('N') == 'n';
    assert lower[5] == LowerChar('P') == 'p';
    assert forall i :: 0 <= i < 9 && i != 0 && i != 5 ==> lower[i] == "neon punk"[i];
    assert "neon punk" == "neon" + ([' '] + "punk");
  }

  /** A text without letters or digits is dropped as a whole. */
  lemma {:induction false} DropRunNone(s: string)
    requires forall i :: 0 <= i < |s| ==> !IsSlugChar(s[i])
    ensures DropRun(s) == []
  {
    if s != [] {
      DropRunNone(s[1..]);
    }
  }

  /** A name made only of characters that are neither letters, digits nor white space gives
      an empty identifier. */
  lemma SymbolsSlug(name: string)
    requires name != []
    requires forall i :: 0 <= i < |name| ==> !IsSlugChar(name[i]) && !IsWhiteSpace(name[i]) && !('A' <= name[i] <= 'Z')
    ensures Slug(name) == ""
  {
    ToLowerOfLower(name);
    TrimOfTrimmed(name);
    DropRunNone(name);
    assert ReplaceRuns(name) == "_" + ReplaceRuns([]);
  }

  /** "!!!" gives an empty identifier. */
  lemma SymbolsOnlySlug()
    ensures Slug("!!!") == ""
  {
    SymbolsSlug("!!!");
  }

  /** The identifier saved: the edited template's own identifier when it has one, otherwise the
      slug of the name as typed. */
  function SavedId(editing: Option<Template>, name: string): string {
    if editing.Some? && editing.value.id != "" then editing.value.id else Slug(name)
  }

  /** The placeholder image for an identifier. */
  function PlaceholderFor(id: string): string {
    PlaceholderPrefix + id + PlaceholderSuffix
  }

  /** The thumbnail saved: the current one when there is a non-empty one, otherwise the
      placeholder for the identifier. */
  function ThumbnailFor(thumbnail: Option<string>, id: string): string {
    if thumbnail.Some? && thumbnail.value != "" then thumbnail.value else PlaceholderFor(id)
  }

  /** `handleSave`: refused when the trimmed name or prompt is empty; otherwise the template
      with the saved identifier, the trimmed name and prompt, and the saved thumbnail. */
  function SaveTemplate(editing: Option<Template>, name: string, prompt: string, thumbnail: Option<string>): Result<Template> {
    if Trim(name) == "" || Trim(prompt) == "" then Err(ValidationMessage)
    else
      var id := SavedId(editing, name);
      Ok(Template(id, Trim(name), Trim(prompt), ThumbnailFor(thumbnail, id)))
  }

  /** Saving is refused, with the validation message, exactly when a field is blank. */
  lemma SaveRefused(editing: Option<Template>, name: string, prompt: string, thumbnail: Option<string>)
    ensures var r := SaveTemplate(editing, name, prompt, thumbnail);
      && (r.Err? <==> IsBlank(name) || IsBlank(prompt))
      && (r.Err? ==> r.message == ValidationMessage)
  {
    TrimBlank(name);
    TrimBlank(prompt);
  }

  /** The saved name and prompt are the trimmed fields, so they are non-empty and carry no
      surrounding white space. */
  lemma SaveFields(editing: Option<Template>, name: string, prompt: string, thumbnail: Option<string>)
    ensures var r := SaveTemplate(editing, name, prompt, thumbnail);
      r.Ok? ==>
        && r.value.name == Trim(name) && r.value.prompt == Trim(prompt)
        && r.value.name != "" && !IsWhiteSpace(r.value.name[0]) && !IsWhiteSpace(r.value.name[|r.value.name| - 1])
        && r.value.prompt != "" && !IsWhiteSpace(r.value.prompt[0])
        && !IsWhiteSpace(r.value.prompt[|r.value.prompt| - 1])
  {
    TrimEnds(name);
    TrimEnds(prompt);
  }

  /** The placeholder is never empty. */
  lemma PlaceholderNonEmpty(id: string)
    ensures PlaceholderFor(id) != ""
  {
    assert |PlaceholderFor(id)| >= |PlaceholderPrefix| > 0;
  }

  /** The saved thumbnail is the current one when there is a non-empty one, otherwise the
      placeholder for the saved identifier; either way it is never empty. */
  lemma SaveThumbnail(editing: Option<Template>, name: string, prompt: string, thumbnail: Option<string>)
    ensures var r := SaveTemplate(editing, name, prompt, thumbnail);
      && (r.Ok? && thumbnail.Some? && thumbnail.value != "" ==> r.value.thumbnail == thumbnail.value)
      && (r.Ok? && (thumbnail.None? || thumbnail.value == "") ==> r.value.thumbnail == PlaceholderFor(r.value.id))
      && (r.Ok? ==> r.value.thumbnail != "")
  {
    PlaceholderNonEmpty(SavedId(editing, name));
  }

  /** Editing a template with an identifier keeps that identifier, whatever the new name. */
  lemma EditKeepsId(t: Template, name: string, prompt: string, thumbnail: Option<string>)
    requires t.id != ""
    requires !IsBlank(name) && !IsBlank(prompt)
    ensures SaveTemplate(Some(t), name, prompt, thumbnail).Ok?
    ensures SaveTemplate(Some(t), name, prompt, thumbnail).value.id == t.id
  {
    TrimBlank(name);
    TrimBlank(prompt);
  }

  /** Creating a template derives a well-formed identifier from the name, and uses the
      placeholder for it when there is no thumbnail. */
  lemma CreateIdIsSlug(name: string, prompt: string, thumbnail: Option<string>)
    requires !IsBlank(name) && !IsBlank(prompt)
    ensures var r := SaveTemplate(None, name, prompt, thumbnail);
      && r.Ok? && r.value.id == Slug(name) && WellFormedSlug(r.value.id)
      && (thumbnail.None? ==> r.value.thumbnail == PlaceholderFor(Slug(name)))
  {
    TrimBlank(name);
    TrimBlank(prompt);
    SlugShape(name);
  }

  /** Two names the identifier cannot tell apart: case and punctuation are lost, so creating
      "Neon Punk" and "neon-punk" gives the same identifier. */
  lemma SlugCollision()
    ensures Slug("Neon Punk") == Slug("neon-punk")
  {
    NeonPunkSlug();
    HyphenatedSlug();
  }

  /** "neon-punk" becomes "neon_punk". */
  lemma HyphenatedSlug()
    ensures Slug("neon-punk") == "neon_punk"
  {
    LowerHyphenated();
    TwoWordSlug("neon-punk", "neon", '-', "punk");
    JoinNeonPunk();
  }

  lemma LowerHyphenated()
    ensures ToLower("neon-punk") == "neon" + (['-'] + "punk")
  {
    ToLowerOfLower("neon-punk");
    assert "neon-punk" == "neon" + (['-'] + "punk");
  }

  /** The dialog's state: the template it was opened for, whether it is open, and its three
      fields. */
  class Modal {
    var template: Option<Template>
    var isOpen: bool
    var name: string
    var prompt: string
    var thumbnail: Option<string>

    constructor ()
      ensures template == None && !isOpen && name == "" && prompt == "" && thumbnail == None
    {
      template := None;
      isOpen := false;
      name := "";
      prompt := "";
      thumbnail := None;
    }

    /** Opening the dialog for `t` (None: a new style) fills the fields from it: an absent or
        empty value gives an empty field, and an absent or empty thumbnail no thumbnail. */
    method Open(t: Option<Template>)
      modifies this
      ensures template == t && isOpen
      ensures name == (if t.Some? then t.value.name else "")
      ensures prompt == (if t.Some? then t.value.prompt else "")
      ensures thumbnail == (if t.Some? && t.value.thumbnail != "" then Some(t.value.thumbnail) else None)
    {
      template := t;
      isOpen := true;
      name := if t.Some? then t.value.name else "";
      prompt := if t.Some? then t.value.prompt else "";
      thumbnail := if t.Some? && t.value.thumbnail != "" then Some(t.value.thumbnail) else None;
    }

    /** The dialog is closed by its owner; its fields are kept until it is opened again. */
    method Close()
      modifies this`isOpen
      ensures !isOpen
    {
      isOpen := false;
    }

    method EditName(value: string)
      modifies this`name
      ensures name == value
    {
      name := value;
    }

    method EditPrompt(value: string)
      modifies this`prompt
      ensures prompt == value
    {
      prompt := value;
    }

    /** `handleGenerateThumbnail`: nothing is requested while the prompt is empty (a prompt of
        white space only is sent as it is); a generated thumbnail replaces the current one, and
        a failure leaves it. */
    method GenerateThumbnail(apiKey: string, images: string -> GeminiService.ImagesResponse) returns (requested: bool)
      modifies this`thumbnail
      ensures requested <==> old(prompt) != ""
      ensures var r := GeminiService.GenerateThumbnailForPrompt(apiKey, old(prompt), images);
        thumbnail == (if requested && r.Ok? then Some(r.value) else old(thumbnail))
    {
      if prompt == "" {
        return false;
      }
      var r := GeminiService.GenerateThumbnailForPrompt(apiKey, prompt, images);
      if r.Ok? {
        thumbnail := Some(r.value);
      }
      return true;
    }

    /** `handleSave`, which is reachable only while the dialog is shown: the template handed to
        the owner, or the validation failure. The dialog itself is not changed. */
    method Save() returns (r: Result<Template>)
      requires isOpen
      ensures r == SaveTemplate(template, name, prompt, thumbnail)
    {
      if Trim(name) == "" || Trim(prompt) == "" {
        return Err(ValidationMessage);
      }
      var finalId := if template.Some? && template.value.id != "" then template.value.id else Slug(name);
      var finalThumbnail := if thumbnail.Some? && thumbnail.value != "" then thumbnail.value else PlaceholderFor(finalId);
      r := Ok(Template(finalId, Trim(name), Trim(prompt), finalThumbnail));
    }
  }

  /** A dialog opened on a template and saved without edits gives back that template with
      trimmed fields, when its name and prompt are not blank. */
  lemma ReopenedSaveKeepsTemplate(t: Template)
    requires t.id != "" && !IsBlank(t.name) && !IsBlank(t.prompt)
    ensures var thumb := if t.thumbnail != "" then Some(t.thumbnail) else None;
      SaveTemplate(Some(t), t.name, t.prompt, thumb)
        == Ok(Template(t.id, Trim(t.name), Trim(t.prompt), if t.thumbnail != "" then t.thumbnail else PlaceholderFor(t.id)))
  {
    TrimBlank(t.name);
    TrimBlank(t.prompt);
  }
}
