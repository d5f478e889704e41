/** Placeholder substitution of src/app/tools/email-template/page.tsx:
    `replaceVariables` rewrites every `{name}` of a template with the value
    the user typed for `name`, and template selection starts every value
    as the empty string. */
module EmailTemplate {
  import opened Wrappers

  /** Index of the first '}' at or after `i`. */
  function CloseFrom(s: string, i: nat): (r: Option<nat>)
    decreases |s| - i
    ensures r.Some? ==> i <= r.value < |s| && s[r.value] == '}'
    ensures r.Some? ==> forall j :: i <= j < r.value ==> s[j] != '}'
    ensures r.None? ==> forall j :: i <= j < |s| ==> s[j] != '}'
  {
    if i >= |s| then None
    else if s[i] == '}' then Some(i)
    else CloseFrom(s, i + 1)
  }

  /** The end (index of the '}') of a match of `/\{([^}]+)\}/` at the start
      of `s`: a '{', at least one character other than '}', then the first
      '}'. The name between may hold '{'. */
  function PlaceholderEnd(s: string): (r: Option<nat>)
    ensures r.Some? ==> 2 <= r.value < |s| && s[0] == '{' && s[r.value] == '}'
    ensures r.Some? ==> forall j :: 1 <= j < r.value ==> s[j] != '}'
  {
    if |s| >= 2 && s[0] == '{' && s[1] != '}' then CloseFrom(s, 1) else None
  }

  /** The callback: the typed value when it is a non-empty string,
      otherwise the placeholder itself. */
  function Lookup(vars: map<string, string>, key: string): string {
    if key in vars && vars[key] != "" then vars[key] else "{" + key + "}"
  }

  /** `text.replace(/\{([^}]+)\}/g, …)`: the scan moves left to right and
      resumes after each match. */
  function ReplaceVariables(text: string, vars: map<string, string>): string
    decreases |text|
  {
    if text == [] then []
    else
      match PlaceholderEnd(text)
      case Some(j) => Lookup(vars, text[1..j]) + ReplaceVariables(text[j + 1..], vars)
      case None => [text[0]] + ReplaceVariables(text[1..], vars)
  }

  /** A name a placeholder can carry. */
  predicate ValidKey(k: string) {
    k != [] && '}' !in k
  }

  lemma PlaceholderOf(k: string, rest: string)
    requires ValidKey(k)
    ensures PlaceholderEnd("{" + k + "}" + rest) == Some(|k| + 1)
  {
    var s := "{" + k + "}" + rest;
    assert s[1] == k[0];
    var r := CloseFrom(s, 1);
    assert s[|k| + 1] == '}';
    assert forall j :: 1 <= j < |k| + 1 ==> s[j] == k[j - 1];
  }

  /** A placeholder whose name has a non-empty value becomes that value;
      one whose value is empty or missing stays as written. */
  lemma ReplacesPlaceholder(k: string, rest: string, vars: map<string, string>)
    requires ValidKey(k)
    ensures ReplaceVariables("{" + k + "}" + rest, vars) ==
              (if k in vars && vars[k] != "" then vars[k] else "{" + k + "}") + ReplaceVariables(rest, vars)
  {
    var s := "{" + k + "}" + rest;
    PlaceholderOf(k, rest);
    assert s[1..|k| + 1] == k;
    assert s[|k| + 2..] == rest;
  }

  /** Text with no '{' before a placeholder is copied as is. */
  lemma {:induction false} PlainPrefix(plain: string, rest: string, vars: map<string, string>)
    requires '{' !in plain
    ensures ReplaceVariables(plain + rest, vars) == plain + ReplaceVariables(rest, vars)
  {
    if plain != [] {
      var s := plain + rest;
      assert s[0] == plain[0] != '{';
      assert PlaceholderEnd(s).None?;
      assert s[1..] == plain[1..] + rest;
      PlainPrefix(plain[1..], rest, vars);
      assert ReplaceVariables(s, vars) == [s[0]] + ReplaceVariables(s[1..], vars);
      assert plain == [plain[0]] + plain[1..];
    } else {
      assert plain + rest == rest;
    }
  }

  /** Text in which no position starts a match is returned unchanged,
      such as "a{b", "{}" or "x}{y". */
  lemma {:induction false} NoPlaceholdersUnchanged(text: string, vars: map<string, string>)
    requires forall i :: 0 <= i < |text| ==> PlaceholderEnd(text[i..]).None?
    ensures ReplaceVariables(text, vars) == text
    decreases |text|
  {
    if text != [] {
      assert PlaceholderEnd(text[0..]).None? && text[0..] == text;
      forall i | 0 <= i < |text| - 1
        ensures PlaceholderEnd(text[1..][i..]).None?
      {
        assert text[1..][i..] == text[i + 1..];
      }
      NoPlaceholdersUnchanged(text[1..], vars);
      assert text == [text[0]] + text[1..];
    }
  }

  /** Text without any '{' holds no match. */
  lemma NoBraceNoPlaceholder(text: string)
    requires '{' !in text
    ensures forall i :: 0 <= i < |text| ==> PlaceholderEnd(text[i..]).None?
  {
    forall i | 0 <= i < |text|
      ensures PlaceholderEnd(text[i..]).None?
    {
      assert text[i..][0] == text[i];
    }
  }

  /** "a{b", "{}" and "x}{y" hold no match. */
  lemma UnmatchedBracesKept(vars: map<string, string>)
    ensures ReplaceVariables("a{b", vars) == "a{b"
    ensures ReplaceVariables("{}", vars) == "{}"
    ensures ReplaceVariables("x}{y", vars) == "x}{y"
  {
    NoPlaceholdersUnchanged("a{b", vars);
    NoPlaceholdersUnchanged("{}", vars);
    NoPlaceholdersUnchanged("x}{y", vars);
  }

  /** With every value empty, as right after template selection, the
      result is the text itself. */
  lemma {:induction false} BlankValuesUnchanged(text: string, vars: map<string, string>)
    requires forall k :: k in vars ==> vars[k] == ""
    ensures ReplaceVariables(text, vars) == text
    decreases |text|
  {
    if text != [] {
      match PlaceholderEnd(text)
      case Some(j) =>
        BlankValuesUnchanged(text[j + 1..], vars);
        BlankPlaceholder(text, j, vars);
      case None =>
        BlankValuesUnchanged(text[1..], vars);
        assert text == [text[0]] + text[1..];
    }
  }

  lemma BlankPlaceholder(text: string, j: nat, vars: map<string, string>)
    requires forall k :: k in vars ==> vars[k] == ""
    requires 2 <= j < |text| && text[0] == '{' && text[j] == '}'
    ensures Lookup(vars, text[1..j]) + text[j + 1..] == text
  {
    var key := text[1..j];
    assert Lookup(vars, key) == "{" + key + "}";
    assert text == [text[0]] + text[1..j] + [text[j]] + text[j + 1..];
  }

  datatype Template = Template(subject: string, content: string, variables: seq<string>)

  /** Lines 265-274: every variable of the template starts as ''. */
  method BlankVariables(names: seq<string>) returns (vars: map<string, string>)
    ensures vars.Keys == set v | v in names
    ensures forall k :: k in vars ==> vars[k] == ""
  {
    vars := map[];
    for i := 0 to |names|
      invariant vars.Keys == set v | v in names[..i]
      invariant forall k :: k in vars ==> vars[k] == ""
    {
      assert names[..i + 1] == names[..i] + [names[i]];
      vars := vars[names[i] := ""];
    }
    assert names[..|names|] == names;
  }

  /** Lines 287-293. */
  function GeneratePreview(selected: Option<Template>, vars: map<string, string>): (r: (string, string))
    ensures selected.None? ==> r == ("", "")
  {
    match selected
    case None => ("", "")
    case Some(t) => (ReplaceVariables(t.subject, vars), ReplaceVariables(t.content, vars))
  }

  /** Right after selection the preview is the raw template. */
  lemma PreviewAfterSelection(t: Template, vars: map<string, string>)
    requires forall k :: k in vars ==> vars[k] == ""
    ensures GeneratePreview(Some(t), vars) == (t.subject, t.content)
  {
    BlankValuesUnchanged(t.subject, vars);
    BlankValuesUnchanged(t.content, vars);
  }
}
