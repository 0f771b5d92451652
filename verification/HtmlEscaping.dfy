/** Escaping user-controlled text for the mail templates: five whole-string replacements, one after the other. */
module HtmlEscaping {
  import opened Prelude

  function ReplaceAll(s: string, c: char, entity: string): string {
    if s == "" then "" else (if s[0] == c then entity else [s[0]]) + ReplaceAll(s[1..], c, entity)
  }

  function EscapeHtml(value: Option<string>): string {
    var s0 := if value.Some? then value.value else "";
    var s1 := ReplaceAll(s0, '&', "&amp;");
    var s2 := ReplaceAll(s1, '<', "&lt;");
    var s3 := ReplaceAll(s2, '>', "&gt;");
    var s4 := ReplaceAll(s3, '"', "&quot;");
    ReplaceAll(s4, '\'', "&#39;")
  }

  // --------------------------------------------------- as one substitution

  /** What stands for a character in the escaped text. */
  function Substitute(c: char): string {
    if c == '&' then "&amp;"
    else if c == '<' then "&lt;"
    else if c == '>' then "&gt;"
    else if c == '"' then "&quot;"
    else if c == '\'' then "&#39;"
    else [c]
  }

  function Substituted(s: string): string {
    if s == "" then "" else Substitute(s[0]) + Substituted(s[1..])
  }

  lemma {:induction false} ReplaceConcat(a: string, b: string, c: char, entity: string)
    ensures ReplaceAll(a + b, c, entity) == ReplaceAll(a, c, entity) + ReplaceAll(b, c, entity)
  {
    if a == "" {
      assert a + b == b;
    } else {
      assert (a + b)[1..] == a[1..] + b;
      ReplaceConcat(a[1..], b, c, entity);
    }
  }

  lemma {:induction false} ReplaceAbsent(s: string, c: char, entity: string)
    requires c !in s
    ensures ReplaceAll(s, c, entity) == s
  {
    if s != "" {
      assert s[0] in s;
      ReplaceAbsent(s[1..], c, entity);
    }
  }

  lemma ReplaceOne(c: char, entity: string)
    ensures ReplaceAll([c], c, entity) == entity
  {
    assert [c][1..] == "";
    assert entity + "" == entity;
  }

  /** A pass changes its own character into the entity, and any other not at all. */
  lemma ReplaceChar(c: char, target: char, entity: string)
    ensures ReplaceAll([c], target, entity) == if c == target then entity else [c]
  {
    if c == target { ReplaceOne(c, entity); } else { ReplaceAbsent([c], target, entity); }
  }

  /** No later pass touches an entity put in by an earlier one. */
  lemma LaterPassesKeep()
    ensures ReplaceAll("&amp;", '<', "&lt;") == "&amp;"
    ensures ReplaceAll("&amp;", '>', "&gt;") == "&amp;" && ReplaceAll("&lt;", '>', "&gt;") == "&lt;"
    ensures ReplaceAll("&amp;", '"', "&quot;") == "&amp;" && ReplaceAll("&amp;", '\'', "&#39;") == "&amp;"
    ensures ReplaceAll("&lt;", '"', "&quot;") == "&lt;" && ReplaceAll("&lt;", '\'', "&#39;") == "&lt;"
    ensures ReplaceAll("&gt;", '"', "&quot;") == "&gt;" && ReplaceAll("&gt;", '\'', "&#39;") == "&gt;"
    ensures ReplaceAll("&quot;", '\'', "&#39;") == "&quot;"
  {
    hide ReplaceAll;
    ReplaceAbsent("&amp;", '<', "&lt;");
    ReplaceAbsent("&amp;", '>', "&gt;");
    ReplaceAbsent("&lt;", '>', "&gt;");
    ReplaceAbsent("&amp;", '"', "&quot;");
    ReplaceAbsent("&lt;", '"', "&quot;");
    ReplaceAbsent("&gt;", '"', "&quot;");
    ReplaceAbsent("&amp;", '\'', "&#39;");
    ReplaceAbsent("&lt;", '\'', "&#39;");
    ReplaceAbsent("&gt;", '\'', "&#39;");
    ReplaceAbsent("&quot;", '\'', "&#39;");
  }

  lemma EscapeOne(c: char)
    ensures EscapeHtml(Some([c])) == Substitute(c)
  {
    hide ReplaceAll;
    LaterPassesKeep();
    ReplaceChar(c, '&', "&amp;");
    ReplaceChar(c, '<', "&lt;");
    ReplaceChar(c, '>', "&gt;");
    ReplaceChar(c, '"', "&quot;");
    ReplaceChar(c, '\'', "&#39;");
  }

  lemma EscapeConcat(a: string, b: string)
    ensures EscapeHtml(Some(a + b)) == EscapeHtml(Some(a)) + EscapeHtml(Some(b))
  {
    hide ReplaceAll;
    ReplaceConcat(a, b, '&', "&amp;");
    var a1, b1 := ReplaceAll(a, '&', "&amp;"), ReplaceAll(b, '&', "&amp;");
    ReplaceConcat(a1, b1, '<', "&lt;");
    var a2, b2 := ReplaceAll(a1, '<', "&lt;"), ReplaceAll(b1, '<', "&lt;");
    ReplaceConcat(a2, b2, '>', "&gt;");
    var a3, b3 := ReplaceAll(a2, '>', "&gt;"), ReplaceAll(b2, '>', "&gt;");
    ReplaceConcat(a3, b3, '"', "&quot;");
    var a4, b4 := ReplaceAll(a3, '"', "&quot;"), ReplaceAll(b3, '"', "&quot;");
    ReplaceConcat(a4, b4, '\'', "&#39;");
  }

  /** The five passes amount to one substitution, character by character. */
  lemma {:induction false} FivePassesAreOneMap(s: string)
    ensures EscapeHtml(Some(s)) == Substituted(s)
  {
    if s == "" {
      EscapeNothing();
    } else {
      assert s == [s[0]] + s[1..];
      EscapeConcat([s[0]], s[1..]);
      EscapeOne(s[0]);
      FivePassesAreOneMap(s[1..]);
    }
  }

  lemma EscapeNothing()
    ensures EscapeHtml(Some("")) == "" && EscapeHtml(None) == ""
  {
  }

  // ------------------------------------------------------- safe and invertible

  /** The entity at the beginning of a text and the character it stands for. */
  function EntityAt(s: string): Option<(string, char)> {
    if "&amp;" <= s then Some(("&amp;", '&'))
    else if "&lt;" <= s then Some(("&lt;", '<'))
    else if "&gt;" <= s then Some(("&gt;", '>'))
    else if "&quot;" <= s then Some(("&quot;", '"'))
    else if "&#39;" <= s then Some(("&#39;", '\''))
    else None
  }

  function Unescape(s: string): string {
    if s == "" then ""
    else match EntityAt(s)
      case Some((entity, c)) => [c] + Unescape(s[|entity|..])
      case None => [s[0]] + Unescape(s[1..])
  }

  predicate Special(c: char) {
    c == '&' || c == '<' || c == '>' || c == '"' || c == '\''
  }

  lemma EntityFirst(c: char, rest: string)
    ensures Special(c) ==> EntityAt(Substitute(c) + rest) == Some((Substitute(c), c))
    ensures !Special(c) ==> EntityAt(Substitute(c) + rest).None?
    ensures (Substitute(c) + rest)[|Substitute(c)|..] == rest
  {
    var s := Substitute(c) + rest;
    if Special(c) {
      assert Substitute(c) <= s;
      assert s[0] == '&' && s[1] == Substitute(c)[1];
    } else {
      assert s[0] == c;
    }
  }

  /** Decoding the entities gives back the original text. */
  lemma {:induction false} UnescapeInverts(s: string)
    ensures Unescape(EscapeHtml(Some(s))) == s
  {
    FivePassesAreOneMap(s);
    if s == "" {
    } else {
      FivePassesAreOneMap(s[1..]);
      EntityFirst(s[0], Substituted(s[1..]));
      UnescapeInverts(s[1..]);
      assert s == [s[0]] + s[1..];
    }
  }

  /** No raw markup character at that position, and an ampersand there begins one of the five entities. */
  predicate SafeAt(s: string, k: nat)
    requires k < |s|
  {
    s[k] != '<' && s[k] != '>' && s[k] != '"' && s[k] != '\'' && (s[k] == '&' ==> EntityAt(s[k..]).Some?)
  }

  lemma SafeAtStart(c: char, rest: string, k: nat)
    requires k < |Substitute(c)|
    ensures SafeAt(Substitute(c) + rest, k)
  {
    EntityFirst(c, rest);
    var s := Substitute(c) + rest;
    assert s[0..] == s;
    assert s[k] == Substitute(c)[k];
  }

  lemma {:induction false} EscapedIsSafe(s: string, k: nat)
    requires k < |EscapeHtml(Some(s))|
    ensures SafeAt(EscapeHtml(Some(s)), k)
    decreases |s|
  {
    hide EscapeHtml;
    hide Substitute;
    FivePassesAreOneMap(s);
    var head, rest := Substitute(s[0]), Substituted(s[1..]);
    if k < |head| {
      SafeAtStart(s[0], rest, k);
    } else {
      FivePassesAreOneMap(s[1..]);
      EscapedIsSafe(s[1..], k - |head|);
      assert (head + rest)[k..] == rest[k - |head|..];
    }
  }

  /** Escaping changes a text exactly when it holds one of the five characters; so escaping twice is not escaping once. */
  lemma {:induction false} UnchangedIffHarmless(s: string)
    ensures EscapeHtml(Some(s)) == s <==> forall c :: c in s ==> !Special(c)
  {
    FivePassesAreOneMap(s);
    Longer(s);
    if forall c :: c in s ==> !Special(c) {
      Untouched(s);
    }
  }

  lemma {:induction false} Longer(s: string)
    ensures |Substituted(s)| >= |s|
    ensures (exists c :: c in s && Special(c)) ==> |Substituted(s)| > |s|
  {
    if s != "" {
      assert s == [s[0]] + s[1..];
      Longer(s[1..]);
    }
  }

  lemma {:induction false} Untouched(s: string)
    requires forall c :: c in s ==> !Special(c)
    ensures Substituted(s) == s
  {
    if s != "" {
      assert s[0] in s;
      Untouched(s[1..]);
    }
  }
}
