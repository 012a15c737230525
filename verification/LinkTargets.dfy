/** What a click opens, and where: the schemes of links and form actions, said letter by letter, and the
    fields a form submits. */
module LinkTargets {
  import opened Wrappers
  import opened Dom
  import opened Interceptor
  import FormEncoding

  // ---- schemes ------------------------------------------------------------------------------------

  /** The byte is the given letter, large or small, or the given sign. */
  predicate SameLetter(b: int, c: char) { b == c as int || ('a' <= c <= 'z' && b == c as int - 0x20) }

  /** `url` begins with `scheme`, in whatever case. */
  predicate Begins(url: Text, scheme: string) {
    |scheme| <= |url| && forall i | 0 <= i < |scheme| :: SameLetter(url[i], scheme[i])
  }

  const BROWSER: seq<string> := ["http://", "https://", "mailto:", "tel:", "sms:"]
  const BLOCKED: seq<string> := ["data:", "javascript:", "file://"]

  predicate ForBrowser(url: Text) { exists s <- BROWSER :: Begins(url, s) }

  predicate IsBlocked(url: Text) { exists s <- BLOCKED :: Begins(url, s) }

  /** A colon and two slashes stand somewhere in `url`. */
  predicate HasAuthority(url: Text) {
    exists k | 0 <= k <= |url| - 3 :: url[k] == ':' as int && url[k + 1] == '/' as int && url[k + 2] == '/' as int
  }

  /** Small letters and signs of ASCII. */
  predicate Plain(s: string) { forall c <- s :: c as int < 128 && !('A' <= c <= 'Z') }

  lemma BeginsIff(url: Text, scheme: string)
    requires Plain(scheme)
    ensures Begins(url, scheme) <==> Ascii(scheme) <= Lower(url)
  {
    var a, l := Ascii(scheme), Lower(url);
    if |scheme| <= |url| {
      forall i | 0 <= i < |scheme| ensures SameLetter(url[i], scheme[i]) <==> a[i] == l[i] {
        assert scheme[i] in scheme;
      }
      if a <= l { forall i | 0 <= i < |scheme| ensures a[i] == l[i] {} }
      if Begins(url, scheme) { assert forall i | 0 <= i < |a| :: a[i] == l[i]; }
    }
  }

  lemma HasAuthorityIff(url: Text)
    ensures HasAuthority(url) <==> Contains(url, Ascii("://"))
  {
    var mark := Ascii("://");
    assert mark == [':' as int, '/' as int, '/' as int];
    if k :| 0 <= k <= |url| && mark <= url[k..] {
      assert url[k..][0] == mark[0] && url[k..][1] == mark[1] && url[k..][2] == mark[2];
      assert url[k] == ':' as int && url[k + 1] == '/' as int && url[k + 2] == '/' as int;
    }
    if k :| 0 <= k <= |url| - 3 && url[k] == ':' as int && url[k + 1] == '/' as int && url[k + 2] == '/' as int {
      assert url[k..][..3] == mark;
    }
  }

  /** No URL begins with a scheme of both kinds. */
  lemma BlockedIsNotForBrowser(url: Text)
    ensures !(ForBrowser(url) && IsBlocked(url))
  {
    if s :| s in BROWSER && Begins(url, s) {
      if t :| t in BLOCKED && Begins(url, t) {
        assert SameLetter(url[0], s[0]) && SameLetter(url[0], t[0]);
        assert s[0] in ['h', 'm', 't', 's'] && t[0] in ['d', 'j', 'f'];
      }
    }
  }

  /** Where a URL goes: to the browser by its scheme, nowhere when it is blocked or has another scheme with
      an authority, and into the conversation otherwise. */
  lemma ClassifiedIff(url: Text)
    ensures ClassifyUrl(url) == Some(SystemBrowser) <==> ForBrowser(url)
    ensures ClassifyUrl(url) == Some(ContinueConversation) <==>
            !ForBrowser(url) && !IsBlocked(url) && !HasAuthority(url)
    ensures ClassifyUrl(url) == None <==> !ForBrowser(url) && (IsBlocked(url) || HasAuthority(url))
  {
    hide Lower, Ascii, Begins, Contains, HasAuthority;
    BlockedIsNotForBrowser(url);
    HasAuthorityIff(url);
    SchemesPlain();
    forall s: string | Plain(s) ensures Begins(url, s) <==> Ascii(s) <= Lower(url) { BeginsIff(url, s); }
    assert BROWSER[0] in BROWSER && BROWSER[1] in BROWSER && BROWSER[2] in BROWSER && BROWSER[3] in BROWSER;
    assert BROWSER[4] in BROWSER && BLOCKED[0] in BLOCKED && BLOCKED[1] in BLOCKED && BLOCKED[2] in BLOCKED;
  }

  lemma SchemesPlain()
    ensures forall s <- BROWSER + BLOCKED :: Plain(s)
    ensures Plain("http://") && Plain("https://") && Plain("mailto:") && Plain("tel:") && Plain("sms:")
    ensures Plain("data:") && Plain("javascript:") && Plain("file://")
  {}

  // ---- clicks ----------------------------------------------------------------------------------------

  /** No click, on a link or on a submit control, opens a blocked URL or one with a foreign scheme; a URL it
      opens goes to the browser exactly when its scheme says so. */
  lemma ClickOpensSafely(d: Doc, target: Option<nat>)
    requires WellFormed(d) && EffectOf(d, target).Some?
    ensures var url, to := EffectOf(d, target).value.url, EffectOf(d, target).value.target;
            && !IsBlocked(url)
            && (to == SystemBrowser <==> ForBrowser(url))
            && (to == ContinueConversation ==> !HasAuthority(url))
    ensures target.Some? && TagOf(d, target.value) in {Some(A), Some(Button), Some(Input)}
  {
    hide ClassifyUrl, ForBrowser, IsBlocked, HasAuthority, WellFormed, FormPairs;
    var url := EffectOf(d, target).value.url;
    EffectIsClassified(d, target);
    ClassifiedIff(url);
    BlockedIsNotForBrowser(url);
  }

  lemma EffectIsClassified(d: Doc, target: Option<nat>)
    requires WellFormed(d) && EffectOf(d, target).Some?
    ensures var effect := EffectOf(d, target).value; ClassifyUrl(effect.url) == Some(effect.target)
  {
    hide ClassifyUrl, WellFormed, FormPairs;
  }

  /** A click on a link opens its very address, unless that is blocked or of a foreign scheme. */
  lemma LinkOpensIff(d: Doc, id: nat)
    requires WellFormed(d) && TagOf(d, id) == Some(A)
    ensures var href, effect := AttrOf(d, id, Href), EffectOf(d, Some(id));
            && (effect.Some? <==>
                href.Some? && !IsBlocked(href.value) && (ForBrowser(href.value) || !HasAuthority(href.value)))
            && (effect.Some? ==> effect.value.url == href.value)
  {
    hide ClassifyUrl, ForBrowser, IsBlocked, HasAuthority, WellFormed;
    if AttrOf(d, id, Href).Some? {
      ClassifiedIff(AttrOf(d, id, Href).value);
      BlockedIsNotForBrowser(AttrOf(d, id, Href).value);
    }
  }

  /** A document that is one link. */
  function OneLink(href: string): Doc {
    Doc(0, map[0 := Node(Some(Element(A, map[Href := Ascii(href)])), None, [], 0)], 0)
  }

  lemma OneLinkOk(href: string)
    ensures WellFormed(OneLink(href))
    ensures EffectOf(OneLink(href), Some(0)) == OpenEffect(Ascii(href))
  {
    hide OpenEffect, Ascii;
  }

  /** What a click on it opens. */
  ghost function Opens(href: string): Option<Effect> {
    OneLinkOk(href);
    EffectOf(OneLink(href), Some(0))
  }

  /** For example. */
  lemma BrowserExamples()
    ensures Opens("HTTPS://a.b") == Some(OpenUrl(Ascii("HTTPS://a.b"), SystemBrowser))
    ensures Opens("http://a") == Some(OpenUrl(Ascii("http://a"), SystemBrowser))
    ensures Opens("mailto:a@b") == Some(OpenUrl(Ascii("mailto:a@b"), SystemBrowser))
    ensures Opens("tel:1") == Some(OpenUrl(Ascii("tel:1"), SystemBrowser))
    ensures Opens("sms:1") == Some(OpenUrl(Ascii("sms:1"), SystemBrowser))
  {
    BrowserLink("HTTPS://a.b", 1);
    BrowserLink("http://a", 0);
    BrowserLink("mailto:a@b", 2);
    BrowserLink("tel:1", 3);
    BrowserLink("sms:1", 4);
    hide Opens, Ascii;
  }

  lemma BlockedExamples()
    ensures Opens("JavaScript:x") == None && Opens("data:,x") == None && Opens("FILE:///x") == None
  {
    hide Opens, Ascii;
    BlockedLink("JavaScript:x", 1);
    BlockedLink("data:,x", 0);
    BlockedLink("FILE:///x", 2);
  }

  lemma OtherExamples()
    ensures Opens("ftp://x") == None
    ensures Opens("next?a=b") == Some(OpenUrl(Ascii("next?a=b"), ContinueConversation))
  {
    ForeignLink("ftp://x");
    PlainLink("next?a=b");
    hide Opens, Ascii;
  }

  /** The text begins with the scheme, in whatever case. */
  predicate Spells(s: string, scheme: string) {
    && |scheme| <= |s|
    && forall i | 0 <= i < |scheme| :: s[i] as int < 128 && SameLetter(s[i] as int, scheme[i])
  }

  lemma SpellsBegins(s: string, scheme: string)
    requires Spells(s, scheme)
    ensures Begins(Ascii(s), scheme)
  {}

  lemma BrowserLink(s: string, k: nat)
    requires k < |BROWSER| && Spells(s, BROWSER[k])
    ensures Opens(s) == Some(OpenUrl(Ascii(s), SystemBrowser))
  {
    SpellsBegins(s, BROWSER[k]);
    hide ClassifyUrl, Begins, Spells, Ascii;
    assert BROWSER[k] in BROWSER;
    OneLinkOk(s);
    ClassifiedIff(Ascii(s));
  }

  lemma BlockedLink(s: string, k: nat)
    requires k < |BLOCKED| && Spells(s, BLOCKED[k])
    ensures Opens(s) == None
  {
    SpellsBegins(s, BLOCKED[k]);
    hide ClassifyUrl, Begins, Spells, Ascii;
    assert BLOCKED[k] in BLOCKED;
    OneLinkOk(s);
    ClassifiedIff(Ascii(s));
    BlockedIsNotForBrowser(Ascii(s));
  }

  lemma ForeignLink(s: string)
    requires |s| >= 6 && s[0] == 'f' && s[1] == 't' && s[3] == ':' && s[4] == '/' && s[5] == '/'
    ensures Opens(s) == None
  {
    var url := Ascii(s);
    assert url[3] == ':' as int && url[4] == '/' as int && url[5] == '/' as int;
    assert HasAuthority(url);
    forall p <- BROWSER ensures !Begins(url, p) { assert !SameLetter(url[0], p[0]); }
    hide ClassifyUrl, Begins, Ascii;
    OneLinkOk(s);
    ClassifiedIff(url);
  }

  lemma PlainLink(s: string)
    requires |s| >= 1 && s[0] == 'n' && ':' !in s
    ensures Opens(s) == Some(OpenUrl(Ascii(s), ContinueConversation))
  {
    var url := Ascii(s);
    forall p <- BROWSER ensures !Begins(url, p) { assert !SameLetter(url[0], p[0]); }
    forall p <- BLOCKED ensures !Begins(url, p) { assert !SameLetter(url[0], p[0]); }
    forall k | 0 <= k < |url| ensures url[k] != ':' as int { assert s[k] in s; }
    hide ClassifyUrl, Begins, Ascii;
    OneLinkOk(s);
    ClassifiedIff(url);
  }

  // ---- submitting ---------------------------------------------------------------------------------------

  /** The text is the given word, in whatever case. */
  predicate Says(t: Text, word: string) { |t| == |word| && Begins(t, word) }

  lemma SaysIff(t: Text, word: string)
    requires Plain(word)
    ensures Says(t, word) <==> Lower(t) == Ascii(word)
  {
    BeginsIff(t, word);
    if Says(t, word) { assert Lower(t)[..|word|] == Lower(t); }
  }

  /** A button submits unless it has another type; an input only when its type says so. */
  lemma SubmitControlIff(d: Doc, id: nat)
    ensures var kind := AttrOf(d, id, Type);
            IsSubmit(d, id) <==>
            || (TagOf(d, id) == Some(Button) && (kind.Some? ==> Says(kind.value, "submit")))
            || (TagOf(d, id) == Some(Input) && kind.Some? && (Says(kind.value, "submit") || Says(kind.value, "image")))
  {
    hide Lower, Ascii, Says;
    assert Plain("submit") && Plain("image");
    var kind := AttrOf(d, id, Type);
    if kind.Some? {
      SaysIff(kind.value, "submit");
      SaysIff(kind.value, "image");
    }
  }

  /** The named fields among the given nodes. */
  function FieldsAmong(d: Doc, ids: seq<nat>): seq<nat> {
    if ids == [] then []
    else if NamedField(d, ids[0]) then [ids[0]] + FieldsAmong(d, ids[1..])
    else FieldsAmong(d, ids[1..])
  }

  lemma {:induction false} FieldsAreNamed(d: Doc, ids: seq<nat>, x: nat)
    ensures x in FieldsAmong(d, ids) <==>
            && x in ids && TagOf(d, x) in {Some(Input), Some(Select), Some(Textarea)}
            && AttrOf(d, x, Name).Some? && AttrOf(d, x, Name).value != []
    decreases |ids|
  {
    if ids != [] { FieldsAreNamed(d, ids[1..], x); }
  }

  /** A field's name and value; a field without a value counts as empty. */
  predicate IsPairOf(d: Doc, field: nat, pair: FormEncoding.Pair) {
    && AttrOf(d, field, Name) == Some(pair.name) && pair.name != []
    && if AttrOf(d, field, Value).Some? then AttrOf(d, field, Value) == Some(pair.value) else pair.value == []
  }

  lemma {:induction false} PairsAre(d: Doc, ids: seq<nat>)
    ensures var pairs, fields := PairsOf(d, ids), FieldsAmong(d, ids);
            |pairs| == |fields| && forall k | 0 <= k < |pairs| :: IsPairOf(d, fields[k], pairs[k])
    decreases |ids|
  {
    hide NamedField, IsPairOf, AttrOf;
    if ids != [] {
      PairsAre(d, ids[1..]);
      OwnPairIs(d, ids[0]);
      if !NamedField(d, ids[0]) { assert [] + PairsOf(d, ids[1..]) == PairsOf(d, ids[1..]); }
    }
  }

  lemma OwnPairIs(d: Doc, id: nat)
    ensures if NamedField(d, id) then |OwnPair(d, id)| == 1 && IsPairOf(d, id, OwnPair(d, id)[0])
            else OwnPair(d, id) == []
  {
    hide IsField;
  }

  /** The fields of a form: the named ones below it, in document order. */
  ghost function FieldsOfForm(d: Doc, form: nat): seq<nat>
    requires WellFormed(d) && form in d.nodes
  {
    FieldsAmong(d, PreOrder(d, form)[1..])
  }

  /** The form's action, or "." when there is none. */
  predicate IsActionOf(d: Doc, form: nat, action: Text) {
    var own := AttrOf(d, form, Action);
    if own.Some? && own.value != [] then action == own.value else action == ['.' as int]
  }

  /** The URL is the action and, when there are fields, a query that reads as their names and values. */
  ghost predicate IsSubmitUrl(d: Doc, form: nat, url: Text)
    requires WellFormed(d) && form in d.nodes
  {
    exists action: Text, query: Text, pairs: seq<FormEncoding.Pair> ::
      IsActionOf(d, form, action) && PairsOfForm(d, form, pairs) && IsUrlFrom(url, action, query, pairs)
  }

  ghost predicate PairsOfForm(d: Doc, form: nat, pairs: seq<FormEncoding.Pair>)
    requires WellFormed(d) && form in d.nodes
  {
    var fields := FieldsOfForm(d, form);
    |pairs| == |fields| && forall k | 0 <= k < |pairs| :: IsPairOf(d, fields[k], pairs[k])
  }

  predicate IsUrlFrom(url: Text, action: Text, query: Text, pairs: seq<FormEncoding.Pair>) {
    if pairs == [] then url == action
    else url == action + ['?' as int] + query && FormEncoding.Parse(query) == pairs
  }

  /** A click on a submit control opens its form's action with the form's fields, unless that URL is not to
      be opened; outside a form, or on any other button or input, it opens nothing. */
  lemma SubmitOpensIff(d: Doc, id: nat)
    requires WellFormed(d) && TagOf(d, id) in {Some(Button), Some(Input)}
    ensures var form, effect := FirstForm(d, Ancestors(d, id)), EffectOf(d, Some(id));
            if !IsSubmit(d, id) || form.None? then effect.None?
            else
              && form.value in d.nodes
              && (effect.Some? ==> IsSubmitUrl(d, form.value, effect.value.url))
              && (effect.None? ==> exists url ::
                    IsSubmitUrl(d, form.value, url) && !ForBrowser(url) && (IsBlocked(url) || HasAuthority(url)))
  {
    hide ClassifyUrl, IsSubmit, IsSubmitUrl, SubmitUrl, ForBrowser, IsBlocked, HasAuthority, WellFormed, FormPairs;
    FormInDoc(d, id);
    var form := FirstForm(d, Ancestors(d, id));
    if form.Some? {
      var url := SubmitUrl(ActionOf(d, form.value), FormPairs(d, form.value));
      SubmitUrlIs(d, form.value);
      ClassifiedIff(url);
    }
  }

  lemma SubmitUrlIs(d: Doc, form: nat)
    requires WellFormed(d) && form in d.nodes
    ensures IsSubmitUrl(d, form, SubmitUrl(ActionOf(d, form), FormPairs(d, form)))
  {
    var action, pairs := ActionOf(d, form), FormPairs(d, form);
    var url := SubmitUrl(action, pairs);
    assert PreOrder(d, form)[1..] == Below(d, form, |d.nodes[form].children|);
    PairsAre(d, PreOrder(d, form)[1..]);
    SubmittedFieldsRecovered(action, pairs);
    assert Ascii("?") == ['?' as int] && Ascii(".") == ['.' as int];
    assert PairsOfForm(d, form, pairs) && IsActionOf(d, form, action);
    hide WellFormed, SubmitUrl, FormPairs, PairsOfForm, IsActionOf, Ascii;
    if pairs == [] {
      assert IsUrlFrom(url, action, [], pairs);
    } else {
      var query :| url == action + Ascii("?") + query && FormEncoding.Parse(query) == pairs;
      assert IsUrlFrom(url, action, query, pairs);
    }
  }
}
