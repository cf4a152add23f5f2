/**
 * The compose page: a three-step form. Step 1 takes the names and the
 * message text, step 2 the activities and the theme and sends the form to
 * the create route, step 3 shows the generated link. The pure reducers build
 * new form values; the page object holds the state the handlers update.
 */
module CreatePage {
  import opened Wrappers
  import CreateRoute

  /** The form's fields; the text inputs start as empty strings. */
  datatype FormData = FormData(
    senderName: string,
    recipientName: string,
    message: string,
    theme: string,
    activities: seq<string>)

  /** The form as the page first shows it, and as "Create Another" restores it. */
  const InitialForm := FormData("", "", "", "classic", [])

  // ---------------------------------------------------------------------
  // The activity list toggle.

  /** `list.filter(a => a !== x)`. */
  function RemoveAll(s: seq<string>, x: string): (r: seq<string>)
    ensures multiset(r) == multiset(s)[x := 0]
    ensures x !in r
    ensures x !in s ==> r == s
  {
    if s == [] then []
    else
      assert s == [s[0]] + s[1..];
      if s[0] == x then RemoveAll(s[1..], x) else [s[0]] + RemoveAll(s[1..], x)
  }

  /** Filtering distributes over concatenation, so it keeps the order of what remains. */
  lemma {:induction false} RemoveAllConcat(a: seq<string>, b: seq<string>, x: string)
    ensures RemoveAll(a + b, x) == RemoveAll(a, x) + RemoveAll(b, x)
  {
    if a == [] {
      assert a + b == b;
    } else {
      assert (a + b)[1..] == a[1..] + b;
      RemoveAllConcat(a[1..], b, x);
    }
  }

  /** Appends `x` when absent, removes every occurrence of it when present. */
  function Toggle(s: seq<string>, x: string): (r: seq<string>)
    ensures x !in s ==> r == s + [x]
    ensures x in s ==> x !in r && multiset(r) == multiset(s)[x := 0]
  {
    if x in s then RemoveAll(s, x) else s + [x]
  }

  /** No activity is listed twice. */
  predicate NoDuplicates(s: seq<string>) {
    forall i, j :: 0 <= i < j < |s| ==> s[i] != s[j]
  }

  /** Toggling an absent activity twice gives back the original list. */
  lemma ToggleTwiceRestores(s: seq<string>, x: string)
    requires x !in s
    ensures Toggle(Toggle(s, x), x) == s
  {
    RemoveAllConcat(s, [x], x);
    assert [x][1..] == [];
  }

  lemma {:induction false} RemoveAllKeepsNoDuplicates(s: seq<string>, x: string)
    requires NoDuplicates(s)
    ensures NoDuplicates(RemoveAll(s, x))
  {
    if s != [] {
      RemoveAllKeepsNoDuplicates(s[1..], x);
      if s[0] != x {
        assert s[0] !in s[1..] by {
          forall k | 0 <= k < |s[1..]| ensures s[1..][k] != s[0] {
            assert s[1..][k] == s[k + 1];
          }
        }
        var r := RemoveAll(s[1..], x);
        assert s[0] !in r by {
          assert multiset(r)[s[0]] == multiset(s[1..])[s[0]] == 0;
        }
      }
    }
  }

  /** Toggling keeps a list free of duplicates. */
  lemma ToggleKeepsNoDuplicates(s: seq<string>, x: string)
    requires NoDuplicates(s)
    ensures NoDuplicates(Toggle(s, x))
  {
    if x in s {
      RemoveAllKeepsNoDuplicates(s, x);
    }
  }

  /**
   * `toggleActivity`: only the activity list changes. A listed activity is
   * dropped and every other listed activity stays; an unlisted one is added
   * at the end.
   */
  function ToggleActivity(f: FormData, id: string): (r: FormData)
    ensures r.senderName == f.senderName && r.recipientName == f.recipientName
    ensures r.message == f.message && r.theme == f.theme
    ensures id in f.activities ==> id !in r.activities
    ensures id in f.activities ==> multiset(r.activities) == multiset(f.activities)[id := 0]
    ensures id !in f.activities ==> r.activities == f.activities + [id]
  {
    f.(activities := Toggle(f.activities, id))
  }

  /** `handleTemplateSelect`: only the message changes, to the template's text. */
  function SelectTemplate(f: FormData, templateText: string): (r: FormData)
    ensures r.message == templateText
    ensures r.senderName == f.senderName && r.recipientName == f.recipientName
    ensures r.theme == f.theme && r.activities == f.activities
  {
    f.(message := templateText)
  }

  // ---------------------------------------------------------------------
  // `String.prototype.trim`, which gates the Next button.

  /** The characters `trim` removes: white space and line terminators. */
  predicate IsWhitespace(c: char) {
    || c == ' ' || c == '\t' || c == '\n' || c == '\r'
    || c == '\U{000B}' || c == '\U{000C}' || c == '\U{00A0}' || c == '\U{1680}'
    || ('\U{2000}' <= c <= '\U{200A}')
    || c == '\U{2028}' || c == '\U{2029}' || c == '\U{202F}' || c == '\U{205F}'
    || c == '\U{3000}' || c == '\U{FEFF}'
  }

  predicate Blank(s: string) {
    forall i :: 0 <= i < |s| ==> IsWhitespace(s[i])
  }

  /** Drops the leading white space: what is dropped is all white space, what remains starts with none. */
  function TrimStart(s: string): (r: string)
    ensures r == [] || !IsWhitespace(r[0])
    ensures |r| <= |s| && r == s[|s| - |r|..]
    ensures Blank(s[..|s| - |r|])
  {
    if s != [] && IsWhitespace(s[0]) then
      var r := TrimStart(s[1..]);
      assert s[..|s| - |r|] == [s[0]] + s[1..][..|s| - 1 - |r|];
      r
    else s
  }

  /** Drops the trailing white space: what is dropped is all white space, what remains ends with none. */
  function TrimEnd(s: string): (r: string)
    ensures r == [] || !IsWhitespace(r[|r| - 1])
    ensures |r| <= |s| && r == s[..|r|]
    ensures Blank(s[|r|..])
  {
    if s != [] && IsWhitespace(s[|s| - 1]) then
      var r := TrimEnd(s[..|s| - 1]);
      assert forall i :: 0 <= i < |s| - 1 - |r| ==> s[|r|..][i] == s[..|s| - 1][|r|..][i];
      r
    else s
  }

  /** `r` is the slice of `s` from `k` whose surroundings in `s` are all white space. */
  predicate BlankAround(s: string, k: nat, r: string) {
    k + |r| <= |s| && r == s[k..k + |r|] && Blank(s[..k]) && Blank(s[k + |r|..])
  }

  /**
   * `String.prototype.trim`: the message with its leading and trailing white
   * space removed. The result is the slice of `s` between a blank prefix and a
   * blank suffix, and has no white space left at either end.
   */
  function Trim(s: string): (r: string)
    ensures |r| <= |s|
    ensures r == [] || (!IsWhitespace(r[0]) && !IsWhitespace(r[|r| - 1]))
    ensures exists k: nat :: BlankAround(s, k, r)
  {
    var t := TrimStart(s);
    var r := TrimEnd(t);
    TrimmedSlice(s, t, r);
    r
  }

  /** A blank-free suffix of `s`, cut back to a blank-free prefix, is a slice between blank ends. */
  lemma TrimmedSlice(s: string, t: string, r: string)
    requires |t| <= |s| && t == s[|s| - |t|..] && Blank(s[..|s| - |t|])
    requires t == [] || !IsWhitespace(t[0])
    requires |r| <= |t| && r == t[..|r|] && Blank(t[|r|..])
    requires r == [] || !IsWhitespace(r[|r| - 1])
    ensures BlankAround(s, |s| - |t|, r)
    ensures r == [] || (!IsWhitespace(r[0]) && !IsWhitespace(r[|r| - 1]))
  {
    var k := |s| - |t|;
    assert s[k + |r|..] == t[|r|..];
  }

  lemma {:induction false} TrimStartBlank(s: string)
    ensures TrimStart(s) == [] <==> Blank(s)
  {
    var r := TrimStart(s);
    if r == [] {
      assert s[..|s| - |r|] == s;
    } else {
      assert r[0] == s[|s| - |r|];
    }
  }


  lemma {:induction false} TrimEndEmptyOnlyIfEmpty(s: string)
    ensures TrimEnd(s) == [] ==> Blank(s)
  {
    if s != [] && IsWhitespace(s[|s| - 1]) {
      TrimEndEmptyOnlyIfEmpty(s[..|s| - 1]);
      if TrimEnd(s) == [] {
        forall i | 0 <= i < |s| ensures IsWhitespace(s[i]) {
          if i < |s| - 1 { assert s[i] == s[..|s| - 1][i]; }
        }
      }
    }
  }

  /** `message.trim()` is empty exactly when the message is all white space. */
  lemma TrimEmptyIffBlank(s: string)
    ensures Trim(s) == [] <==> Blank(s)
  {
    TrimStartBlank(s);
    TrimEndEmptyOnlyIfEmpty(TrimStart(s));
  }

  // ---------------------------------------------------------------------
  // The request the page sends, and what the create route makes of it.

  /** The body `generateLink` posts: every field is sent, as the form holds it. */
  function RequestBody(f: FormData): (b: CreateRoute.Body)
    ensures b.senderName == Some(f.senderName) && b.recipientName == Some(f.recipientName)
    ensures b.message == Some(f.message) && b.theme == Some(f.theme)
    ensures b.activities == Some(f.activities)
  {
    CreateRoute.Body(Some(f.senderName), Some(f.recipientName), Some(f.message),
                     Some(f.theme), Some(f.activities))
  }

  /**
   * From this page, an empty name is stored as null, the chosen activities
   * are stored as they are (the `[]` default never applies), and the theme
   * `classic` is what an empty theme becomes.
   */
  lemma PageRequestDefaults(f: FormData, token: string, expiresAt: int)
    ensures var d := CreateRoute.Prepare(RequestBody(f), token, expiresAt);
            && (d.senderName.None? <==> f.senderName == "")
            && (d.recipientName.None? <==> f.recipientName == "")
            && d.messageText == Some(f.message)
            && d.activities == f.activities
            && d.theme == (if f.theme == "" then CreateRoute.DefaultTheme else f.theme)
  {
  }

  // ---------------------------------------------------------------------
  // The page's state and its handlers.

  /** What the create request came back with, as `generateLink` sees it. */
  datatype FetchResult =
    | Threw(error: string)
    | Answered(ok: bool, link: Option<string>)

  class Page {
    var step: int
    var isLoading: bool
    var formData: FormData
    var generatedLink: string

    /**
     * The step is one of 1..3; steps 2 and 3 are reached only with a message
     * that is not blank; the link screen is shown only with a link; a request
     * is in flight only from step 2.
     */
    ghost predicate Valid()
      reads this
    {
      && 1 <= step <= 3
      && (step >= 2 ==> !Blank(formData.message))
      && (step == 3 ==> generatedLink != "")
      && (isLoading ==> step == 2)
    }

    constructor ()
      ensures Valid()
      ensures step == 1 && !isLoading && formData == InitialForm && generatedLink == ""
    {
      step := 1;
      isLoading := false;
      formData := InitialForm;
      generatedLink := "";
    }

    /** A template button, shown on step 1 only. */
    method TemplateClicked(templateText: string)
      requires Valid()
      modifies this
      ensures Valid()
      ensures formData == if old(step) == 1 then SelectTemplate(old(formData), templateText)
                          else old(formData)
      ensures step == old(step) && isLoading == old(isLoading)
      ensures generatedLink == old(generatedLink)
    {
      if step == 1 {
        formData := SelectTemplate(formData, templateText);
      }
    }

    /** An activity button, shown on step 2 only and disabled while loading. */
    method ActivityClicked(id: string)
      requires Valid()
      modifies this
      ensures Valid()
      ensures formData == if old(step) == 2 && !old(isLoading) then ToggleActivity(old(formData), id)
                          else old(formData)
      ensures step == old(step) && isLoading == old(isLoading)
      ensures generatedLink == old(generatedLink)
    {
      if step == 2 && !isLoading {
        formData := ToggleActivity(formData, id);
      }
    }

    /** "Next" (shown on step 1): disabled while the trimmed message is empty. */
    method NextClicked()
      requires Valid()
      modifies this
      ensures Valid()
      ensures step == if old(step) == 1 && !Blank(old(formData.message)) then 2 else old(step)
      ensures formData == old(formData) && isLoading == old(isLoading)
      ensures generatedLink == old(generatedLink)
    {
      TrimEmptyIffBlank(formData.message);
      if step == 1 && Trim(formData.message) != "" {
        step := 2;
      }
    }

    /**
     * "Back" (disabled while loading): on step 1 it leaves the page, which
     * `leaves` reports; otherwise it goes back one step.
     */
    method BackClicked() returns (leaves: bool)
      requires Valid()
      modifies this
      ensures Valid()
      ensures leaves <==> !old(isLoading) && old(step) == 1
      ensures step == if !old(isLoading) && old(step) > 1 then old(step) - 1 else old(step)
      ensures formData == old(formData) && isLoading == old(isLoading)
      ensures generatedLink == old(generatedLink)
    {
      leaves := false;
      if !isLoading {
        if step == 1 {
          leaves := true;
        } else {
          step := step - 1;
        }
      }
    }

    /**
     * "Generate Link" (shown on step 2, disabled while loading): the first
     * half of `generateLink`, which sets `isLoading` and sends the form.
     */
    method GenerateClicked() returns (sent: Option<CreateRoute.Body>)
      requires Valid()
      modifies this
      ensures Valid()
      ensures sent.Some? <==> old(step) == 2 && !old(isLoading)
      ensures sent.Some? ==> sent.value == RequestBody(formData) && isLoading
      ensures sent.Some? ==> !Blank(sent.value.message.value)
      ensures sent.None? ==> isLoading == old(isLoading)
      ensures step == old(step) && formData == old(formData)
      ensures generatedLink == old(generatedLink)
    {
      sent := None;
      if step == 2 && !isLoading {
        isLoading := true;
        sent := Some(RequestBody(formData));
      }
    }

    /**
     * The second half of `generateLink`: the link is stored and step 3 shown
     * only when the reply is ok and carries a non-empty link; in every case
     * the page stops loading.
     */
    method GenerateFinished(result: FetchResult)
      requires Valid() && isLoading
      modifies this
      ensures Valid()
      ensures !isLoading
      ensures result.Answered? && result.ok && !Falsy(result.link) ==>
                step == 3 && generatedLink == result.link.value
      ensures !(result.Answered? && result.ok && !Falsy(result.link)) ==>
                step == old(step) && generatedLink == old(generatedLink)
      ensures formData == old(formData)
    {
      if result.Answered? {
        if !result.ok {
          isLoading := false;
          return;
        }
        if Falsy(result.link) {
          isLoading := false;
          return;
        }
        generatedLink := result.link.value;
        step := 3;
      }
      isLoading := false;
    }

    /** "Create Another", shown on step 3 only: back to an empty form on step 1. */
    method CreateAnotherClicked()
      requires Valid()
      modifies this
      ensures Valid()
      ensures old(step) == 3 ==> step == 1 && formData == InitialForm && generatedLink == ""
      ensures old(step) != 3 ==> step == old(step) && formData == old(formData)
                                 && generatedLink == old(generatedLink)
      ensures isLoading == old(isLoading)
    {
      if step == 3 {
        step := 1;
        formData := InitialForm;
        generatedLink := "";
      }
    }
  }
}
