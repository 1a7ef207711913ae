/** Parameter placeholders: substituteParameter and applyParametersToContainerArgs of
    pkg/controller/parameter_template.go. */
module Substitution {
  import opened Types

  /** bytes.ReplaceAll for a nonempty pattern: leftmost matches, without overlap. */
  function ReplaceAll(s: string, pattern: string, value: string): string
    requires |pattern| > 0
  {
    if |s| < |pattern| then s
    else if s[..|pattern|] == pattern then value + ReplaceAll(s[|pattern|..], pattern, value)
    else [s[0]] + ReplaceAll(s[1..], pattern, value)
  }

  /** The three spellings of a placeholder. */
  datatype Form = Dotted | Plain | Shell

  function Opening(form: Form): string
  {
    match form
    case Dotted => "{{.parameters."
    case Plain => "{{parameters."
    case Shell => "${parameters."
  }

  function Closing(form: Form): string
  {
    if form == Shell then "}" else "}}"
  }

  function Placeholder(form: Form, name: string): (r: string)
    ensures |r| > 2
  {
    Opening(form) + name + Closing(form)
  }

  lemma PlaceholderStart(form: Form, name: string)
    ensures Placeholder(form, name)[0] in {'{', '$'} && Placeholder(form, name)[1] == '{'
    ensures Placeholder(form, name)[2] in {'.', 'p'}
  {
    var pattern := Placeholder(form, name);
    assert pattern[0] == Opening(form)[0] && pattern[1] == Opening(form)[1];
    assert pattern[2] == Opening(form)[2];
  }

  function ReplaceName(s: string, name: string, value: string): string
  {
    var s1 := ReplaceAll(s, Placeholder(Dotted, name), value);
    var s2 := ReplaceAll(s1, Placeholder(Plain, name), value);
    ReplaceAll(s2, Placeholder(Shell, name), value)
  }

  /** The loop over the parameters, for one iteration order. */
  function SubstituteInOrder(s: string, params: map<string, string>, order: seq<string>): string
    requires Elems(order) <= params.Keys
    decreases |order|
  {
    if |order| == 0 then s
    else
      assert order[0] in Elems(order) && Elems(order[1..]) <= Elems(order);
      SubstituteInOrder(ReplaceName(s, order[0], params[order[0]]), params, order[1..])
  }

  ghost predicate IterationOrder(params: map<string, string>, order: seq<string>)
  {
    Distinct(order) && Elems(order) == params.Keys
  }

  /** after is what some iteration order makes of before. */
  ghost predicate Substituted(params: map<string, string>, before: string, after: string)
  {
    exists order :: IterationOrder(params, order) && after == SubstituteInOrder(before, params, order)
  }

  /** Go iterates over the map in an arbitrary order. */
  method SubstituteParameter(str: string, params: map<string, string>) returns (result: string)
    ensures Substituted(params, str, result)
  {
    result := str;
    ghost var order := [];
    var todo := params.Keys;
    while todo != {}
      invariant todo <= params.Keys && Elems(order) == params.Keys - todo && Distinct(order)
      invariant result == SubstituteInOrder(str, params, order)
      decreases todo
    {
      var name :| name in todo;
      todo := todo - {name};
      result := ReplaceAll(result, Placeholder(Dotted, name), params[name]);
      result := ReplaceAll(result, Placeholder(Plain, name), params[name]);
      result := ReplaceAll(result, Placeholder(Shell, name), params[name]);
      InOrderSnoc(str, params, order, name);
      assert Elems(order + [name]) == Elems(order) + {name};
      order := order + [name];
    }
  }

  lemma {:induction false} InOrderSnoc(s: string, params: map<string, string>, order: seq<string>, name: string)
    requires Elems(order) <= params.Keys && name in params && Elems(order + [name]) <= params.Keys
    ensures SubstituteInOrder(s, params, order + [name]) ==
            ReplaceName(SubstituteInOrder(s, params, order), name, params[name])
    decreases |order|
  {
    if |order| > 0 {
      assert order[0] in Elems(order);
      assert (order + [name])[1..] == order[1..] + [name];
      assert Elems(order[1..]) <= Elems(order) && Elems(order[1..] + [name]) <= Elems(order + [name]);
      InOrderSnoc(ReplaceName(s, order[0], params[order[0]]), params, order[1..], name);
    } else {
      assert (order + [name])[1..] == [];
    }
  }

  // Templates.

  datatype Token = Text(text: string) | Hole(form: Form, name: string)

  function RenderToken(t: Token): string
  {
    match t
    case Text(text) => text
    case Hole(form, name) => Placeholder(form, name)
  }

  function Render(tokens: seq<Token>): string
  {
    if |tokens| == 0 then "" else RenderToken(tokens[0]) + Render(tokens[1..])
  }

  predicate Special(c: char)
  {
    c == '{' || c == '}' || c == '$'
  }

  predicate Plaintext(s: string)
  {
    forall i :: 0 <= i < |s| ==> !Special(s[i])
  }

  /** The brace of s at i would be the second character of this placeholder, if only the right texts
      stood before and after s. */
  ghost predicate Completable(s: string, i: int, form: Form, name: string)
  {
    var pattern := Placeholder(form, name);
    && 0 <= i < |s| && Plaintext(name)
    && (i > 0 ==> s[i - 1] == pattern[0])
    && (s[i..] <= pattern[1..] || pattern[1..] <= s[i..])
  }

  /** A text that can hold the decisive brace of no placeholder, whatever it is put between. Texts
      without opening braces are harmless, and so are shell variables and most JSON. */
  ghost predicate Harmless(s: string)
  {
    forall i, form, name :: !Completable(s, i, form, name)
  }

  /** A template whose literals are harmless and whose names contain neither braces nor dollar
      signs. */
  ghost predicate Template(tokens: seq<Token>)
  {
    forall i :: 0 <= i < |tokens| ==> if tokens[i].Text? then Harmless(tokens[i].text) else Plaintext(tokens[i].name)
  }

  /** One simultaneous pass: each placeholder of a name in names becomes its value. */
  function Fill(tokens: seq<Token>, params: map<string, string>, names: set<string>): (r: seq<Token>)
    ensures |r| == |tokens|
  {
    seq(|tokens|, i requires 0 <= i < |tokens| =>
      if tokens[i].Hole? && tokens[i].name in names && tokens[i].name in params then Text(params[tokens[i].name])
          else tokens[i])
  }

  function FillHole(t: Token, form: Form, name: string, value: string): Token
  {
    if t == Hole(form, name) then Text(value) else t
  }

  function FillHoles(tokens: seq<Token>, form: Form, name: string, value: string): (r: seq<Token>)
    ensures |r| == |tokens|
  {
    seq(|tokens|, i requires 0 <= i < |tokens| => FillHole(tokens[i], form, name, value))
  }

  // Matching.

  /** No match of the pattern starts inside u when u is followed by rest. */
  ghost predicate NoMatchIn(u: string, rest: string, pattern: string)
  {
    forall k :: 0 <= k < |u| ==> !(pattern <= (u + rest)[k..])
  }

  lemma {:induction false} SkipText(u: string, rest: string, pattern: string, value: string)
    requires |pattern| > 0 && NoMatchIn(u, rest, pattern)
    ensures ReplaceAll(u + rest, pattern, value) == u + ReplaceAll(rest, pattern, value)
    decreases |u|
  {
    if |u| == 0 {
      assert u + rest == rest;
    } else {
      NoMatchTail(u, rest, pattern);
      SkipText(u[1..], rest, pattern, value);
      SkipChar(u, rest, pattern, value);
      assert u == [u[0]] + u[1..];
    }
  }

  lemma NoMatchTail(u: string, rest: string, pattern: string)
    requires |u| > 0 && NoMatchIn(u, rest, pattern)
    ensures NoMatchIn(u[1..], rest, pattern)
  {
    forall k | 0 <= k < |u[1..]|
      ensures !(pattern <= (u[1..] + rest)[k..])
    {
      assert (u[1..] + rest)[k..] == (u + rest)[k + 1..];
    }
  }

  /** Where no match starts, one character is kept. */
  lemma SkipChar(u: string, rest: string, pattern: string, value: string)
    requires |pattern| > 0 && |u| > 0 && NoMatchIn(u, rest, pattern)
    ensures ReplaceAll(u + rest, pattern, value) == [u[0]] + ReplaceAll(u[1..] + rest, pattern, value)
  {
    var s := u + rest;
    assert s[0..] == s;
    assert s[1..] == u[1..] + rest;
    if |s| < |pattern| {
      ShortStaysPut(s[1..], pattern, value);
      assert s == [s[0]] + s[1..];
    }
  }

  lemma ShortStaysPut(s: string, pattern: string, value: string)
    requires |s| < |pattern|
    ensures ReplaceAll(s, pattern, value) == s
  {
  }

  /** No placeholder goes on here after its first character. */
  ghost predicate StartsSafely(rest: string)
  {
    forall form, name :: Plaintext(name) ==> !(Placeholder(form, name)[1..] <= rest)
  }

  lemma {:induction false} RenderStartsSafely(tokens: seq<Token>)
    requires Template(tokens)
    ensures StartsSafely(Render(tokens))
    decreases |tokens|
  {
    forall form, name | Plaintext(name)
      ensures !(Placeholder(form, name)[1..] <= Render(tokens))
    {
      if |tokens| > 0 {
        RenderStartsSafely(tokens[1..]);
        TokenStartsSafely(tokens[0], Render(tokens[1..]), form, name);
      }
    }
  }

  lemma TokenStartsSafely(t: Token, rest: string, form: Form, name: string)
    requires if t.Text? then Harmless(t.text) else Plaintext(t.name)
    requires Plaintext(name) && StartsSafely(rest)
    ensures !(Placeholder(form, name)[1..] <= RenderToken(t) + rest)
  {
    var first, tail := RenderToken(t), Placeholder(form, name)[1..];
    PlaceholderStart(form, name);
    if t.Hole? {
      PlaceholderStart(t.form, t.name);
      assert (first + rest)[0] == first[0] && (first + rest)[1] == first[1];
    } else if first == "" {
      assert first + rest == rest;
    } else {
      assert first[0..] == first;
      assert !Completable(first, 0, form, name);
      if tail <= first + rest {
        PrefixesAgree(first, tail, first + rest);
      }
    }
  }

  lemma PrefixesAgree(a: string, b: string, s: string)
    requires a <= s && b <= s
    ensures a <= b || b <= a
  {
    if |a| <= |b| {
      assert b[..|a|] == s[..|a|] == a;
    } else {
      assert a[..|b|] == s[..|b|] == b;
    }
  }

  /** No placeholder starts inside a harmless text. */
  lemma TextHasNoMatch(u: string, rest: string, form: Form, name: string)
    requires Harmless(u) && StartsSafely(rest) && Plaintext(name)
    ensures NoMatchIn(u, rest, Placeholder(form, name))
  {
    forall k | 0 <= k < |u|
      ensures !(Placeholder(form, name) <= (u + rest)[k..])
    {
      if u[k] == Placeholder(form, name)[0] {
        TextGoesOn(u, rest, form, name, k);
      }
      SplitAt(u, rest, k, Placeholder(form, name));
    }
  }

  lemma SplitAt(u: string, rest: string, k: nat, pattern: string)
    requires k < |u| && |pattern| > 0 && (u[k] == pattern[0] ==> !(pattern[1..] <= (u + rest)[k + 1..]))
    ensures !(pattern <= (u + rest)[k..])
  {
    assert (u + rest)[k..] == [u[k]] + (u + rest)[k + 1..];
    assert pattern == [pattern[0]] + pattern[1..];
  }

  lemma TextGoesOn(u: string, rest: string, form: Form, name: string, k: nat)
    requires Harmless(u) && StartsSafely(rest) && Plaintext(name)
    requires k < |u| && u[k] == Placeholder(form, name)[0]
    ensures !(Placeholder(form, name)[1..] <= (u + rest)[k + 1..])
  {
    var tail := Placeholder(form, name)[1..];
    assert (u + rest)[k + 1..] == u[k + 1..] + rest;
    if k + 1 == |u| {
      assert u[k + 1..] + rest == rest;
    } else {
      assert !Completable(u, k + 1, form, name);
      if tail <= (u + rest)[k + 1..] {
        PrefixesAgree(u[k + 1..], tail, (u + rest)[k + 1..]);
      }
    }
  }

  /** Inside a placeholder no other one starts. */
  lemma HoleHasNoMatch(form': Form, name': string, rest: string, form: Form, name: string)
    requires Plaintext(name') && Plaintext(name) && (form != form' || name != name')
    ensures NoMatchIn(Placeholder(form', name'), rest, Placeholder(form, name))
  {
    var u, pattern := Placeholder(form', name'), Placeholder(form, name);
    var s := u + rest;
    forall k | 0 <= k < |u|
      ensures !(pattern <= s[k..])
    {
      if k == 0 {
        DifferentHoles(form', name', rest, form, name);
        assert s[0..] == s;
      } else {
        LaterInHole(form', name', rest, form, name, k);
      }
    }
  }

  lemma LaterInHole(form': Form, name': string, rest: string, form: Form, name: string, k: nat)
    requires Plaintext(name') && 1 <= k < |Placeholder(form', name')|
    ensures !(Placeholder(form, name) <= (Placeholder(form', name') + rest)[k..])
  {
    var u, pattern := Placeholder(form', name'), Placeholder(form, name);
    var t := (u + rest)[k..];
    assert t[0] == u[k];
    PlaceholderStart(form, name);
    if k == 1 {
      PlaceholderStart(form', name');
      assert t[1] == u[2];
    } else {
      InsideHole(form', name', k);
    }
  }

  lemma InsideHole(form: Form, name: string, k: nat)
    requires Plaintext(name) && 2 <= k < |Placeholder(form, name)|
    ensures Placeholder(form, name)[k] !in {'{', '$'}
  {
    var o := Opening(form);
    if k < |o| {
      assert Placeholder(form, name)[k] == o[k];
    } else if k < |o| + |name| {
      assert Placeholder(form, name)[k] == name[k - |o|];
    } else {
      assert Placeholder(form, name)[k] == Closing(form)[k - |o| - |name|];
    }
  }

  /** A placeholder is no prefix of a text that starts with a different one: either the
      openings differ, or the first closing brace comes at different places, or the names
      differ. */
  lemma DifferentHoles(form': Form, name': string, rest: string, form: Form, name: string)
    requires Plaintext(name') && Plaintext(name) && (form != form' || name != name')
    ensures !(Placeholder(form, name) <= Placeholder(form', name') + rest)
  {
    var p, s := Placeholder(form, name), Placeholder(form', name') + rest;
    if form != form' {
      assert p[0] != s[0] || p[2] != s[2];
    } else if |name| < |name'| {
      PlaceholderAt(form, name, |name|);
      PlaceholderAt(form, name', |name|);
    } else if |name| > |name'| {
      PlaceholderAt(form, name, |name'|);
      PlaceholderAt(form, name', |name'|);
    } else {
      var i :| 0 <= i < |name| && name[i] != name'[i];
      PlaceholderAt(form, name, i);
      PlaceholderAt(form, name', i);
    }
  }

  lemma PlaceholderAt(form: Form, name: string, i: nat)
    requires i <= |name|
    ensures |Opening(form)| + i < |Placeholder(form, name)|
    ensures Placeholder(form, name)[|Opening(form)| + i] == if i < |name| then name[i] else '}'
  {
  }

  /** Replacing one placeholder in a rendered template replaces exactly its holes. */
  lemma {:induction false} ReplaceHoles(tokens: seq<Token>, form: Form, name: string, value: string)
    requires Template(tokens) && Plaintext(name)
    ensures ReplaceAll(Render(tokens), Placeholder(form, name), value) == Render(FillHoles(tokens, form, name, value))
    decreases |tokens|
  {
    var pattern := Placeholder(form, name);
    if |tokens| > 0 {
      var first, rest := tokens[0], tokens[1..];
      ReplaceHoles(rest, form, name, value);
      assert FillHoles(tokens, form, name, value)[1..] == FillHoles(rest, form, name, value);
      if first == Hole(form, name) {
        assert Render(tokens)[..|pattern|] == pattern;
        assert Render(tokens)[|pattern|..] == Render(rest);
      } else {
        if first.Text? {
          RenderStartsSafely(rest);
          TextHasNoMatch(first.text, Render(rest), form, name);
        } else {
          HoleHasNoMatch(first.form, first.name, Render(rest), form, name);
        }
        SkipText(RenderToken(first), Render(rest), pattern, value);
      }
    }
  }

  lemma ReplaceNameFills(tokens: seq<Token>, params: map<string, string>, name: string)
    requires Template(tokens) && name in params && Plaintext(name) && Harmless(params[name])
    ensures ReplaceName(Render(tokens), name, params[name]) == Render(Fill(tokens, params, {name}))
    ensures Template(Fill(tokens, params, {name}))
  {
    var value := params[name];
    var t1 := FillHoles(tokens, Dotted, name, value);
    var t2 := FillHoles(t1, Plain, name, value);
    var t3 := FillHoles(t2, Shell, name, value);
    ReplaceHoles(tokens, Dotted, name, value);
    FillHolesTemplate(tokens, Dotted, name, value);
    ReplaceHoles(t1, Plain, name, value);
    FillHolesTemplate(t1, Plain, name, value);
    ReplaceHoles(t2, Shell, name, value);
    FillHolesTemplate(t2, Shell, name, value);
    ThreeForms(tokens, params, name);
  }

  lemma FillHolesTemplate(tokens: seq<Token>, form: Form, name: string, value: string)
    requires Template(tokens) && Harmless(value)
    ensures Template(FillHoles(tokens, form, name, value))
  {
  }

  /** Filling the three forms one after the other is filling the name. */
  lemma ThreeForms(tokens: seq<Token>, params: map<string, string>, name: string)
    requires name in params
    ensures FillHoles(FillHoles(FillHoles(tokens, Dotted, name, params[name]), Plain, name, params[name]), Shell, name,
            params[name])
            == Fill(tokens, params, {name})
  {
    var value := params[name];
    var t3 := FillHoles(FillHoles(FillHoles(tokens, Dotted, name, value), Plain, name, value), Shell, name, value);
    forall i | 0 <= i < |tokens|
      ensures t3[i] == Fill(tokens, params, {name})[i]
    {
      AllForms(tokens[i], name, value);
    }
  }

  lemma AllForms(t: Token, name: string, value: string)
    ensures FillHole(FillHole(FillHole(t, Dotted, name, value), Plain, name, value), Shell, name, value)
            == if t.Hole? && t.name == name then Text(value) else t
  {
    if t.Hole? {
      match t.form {
        case Dotted =>
        case Plain =>
        case Shell =>
      }
    }
  }

  ghost predicate PlainParams(params: map<string, string>)
  {
    forall n :: n in params ==> Plaintext(n) && Harmless(params[n])
  }

  lemma {:induction false} OrderFills(tokens: seq<Token>, params: map<string, string>, order: seq<string>)
    requires Template(tokens) && PlainParams(params) && Elems(order) <= params.Keys
    ensures SubstituteInOrder(Render(tokens), params, order) == Render(Fill(tokens, params, Elems(order)))
    decreases |order|
  {
    if |order| == 0 {
      assert Elems(order) == {};
      assert Fill(tokens, params, {}) == tokens;
    } else {
      assert order[0] in Elems(order);
      assert Elems(order) == {order[0]} + Elems(order[1..]);
      var once := Fill(tokens, params, {order[0]});
      ReplaceNameFills(tokens, params, order[0]);
      OrderFills(once, params, order[1..]);
      assert Fill(once, params, Elems(order[1..])) == Fill(tokens, params, Elems(order));
    }
  }

  /** Substitution is simultaneous: on a template with plain names, and with harmless literals and
      values, the repeated replacement gives, for every iteration order of the
      map, what one pass over the placeholders gives. */
  lemma SubstitutionIsSimultaneous(tokens: seq<Token>, params: map<string, string>, order: seq<string>)
    requires Template(tokens) && PlainParams(params) && IterationOrder(params, order)
    ensures SubstituteInOrder(Render(tokens), params, order) == Render(Fill(tokens, params, params.Keys))
  {
    OrderFills(tokens, params, order);
  }

  /** So the result does not depend on the order, and substituting again changes nothing. */
  lemma SubstitutionIsStable(tokens: seq<Token>, params: map<string, string>, o1: seq<string>, o2: seq<string>)
    requires Template(tokens) && PlainParams(params) && IterationOrder(params, o1) && IterationOrder(params, o2)
    ensures SubstituteInOrder(Render(tokens), params, o1) == SubstituteInOrder(Render(tokens), params, o2)
    ensures SubstituteInOrder(SubstituteInOrder(Render(tokens), params, o1), params, o2)
            == SubstituteInOrder(Render(tokens), params, o1)
  {
    var filled := Fill(tokens, params, params.Keys);
    SubstitutionIsSimultaneous(tokens, params, o1);
    SubstitutionIsSimultaneous(tokens, params, o2);
    FilledTemplate(tokens, params);
    SubstitutionIsSimultaneous(filled, params, o2);
  }

  /** A filled template is a template with nothing left to fill. */
  lemma FilledTemplate(tokens: seq<Token>, params: map<string, string>)
    requires Template(tokens) && PlainParams(params)
    ensures Template(Fill(tokens, params, params.Keys))
    ensures Fill(Fill(tokens, params, params.Keys), params, params.Keys) == Fill(tokens, params, params.Keys)
  {
  }

  /** A value that is itself a placeholder is expanded or not, depending on the iteration
      order. */
  lemma NestedValueDependsOnOrder(a: string, b: string, x: string)
    requires a != b && Plaintext(a) && Plaintext(b)
    requires x != Placeholder(Shell, b)
    ensures var params := map[a := Placeholder(Shell, b), b := x];
            && IterationOrder(params, [a, b]) && IterationOrder(params, [b, a])
            && SubstituteInOrder(Placeholder(Shell, a), params, [a, b]) == x
            && SubstituteInOrder(Placeholder(Shell, a), params, [b, a]) == Placeholder(Shell, b)
  {
    var params := map[a := Placeholder(Shell, b), b := x];
    SingleHole(a, a, params[a]);
    SingleHole(a, b, params[b]);
    SingleHole(b, b, params[b]);
    TwoNames(Placeholder(Shell, a), params, a, b);
    TwoNames(Placeholder(Shell, a), params, b, a);
  }

  lemma TwoNames(s: string, params: map<string, string>, a: string, b: string)
    requires a != b && params.Keys == {a, b}
    ensures IterationOrder(params, [a, b])
    ensures SubstituteInOrder(s, params, [a, b]) == ReplaceName(ReplaceName(s, a, params[a]), b, params[b])
  {
    assert Elems([a, b]) == {a, b} && Elems([b]) == {b};
    assert [a, b][1..] == [b] && [b][1..] == [];
    assert SubstituteInOrder(ReplaceName(s, a, params[a]), params, [b]) ==
           ReplaceName(ReplaceName(s, a, params[a]), b, params[b]);
  }

  /** Replacing a name in a text that is a single Shell placeholder. */
  lemma SingleHole(hole: string, name: string, value: string)
    requires Plaintext(hole) && Plaintext(name)
    ensures ReplaceName(Placeholder(Shell, hole), name, value) == if hole == name then value
            else Placeholder(Shell, hole)
  {
    var tokens := [Hole(Shell, hole)];
    RenderSingle(Hole(Shell, hole));
    RenderSingle(Text(value));
    ReplaceHoles(tokens, Dotted, name, value);
    assert FillHoles(tokens, Dotted, name, value) == tokens;
    ReplaceHoles(tokens, Plain, name, value);
    assert FillHoles(tokens, Plain, name, value) == tokens;
    ReplaceHoles(tokens, Shell, name, value);
    assert FillHoles(tokens, Shell, name, value) == [FillHole(Hole(Shell, hole), Shell, name, value)];
  }

  lemma RenderSingle(t: Token)
    ensures Render([t]) == RenderToken(t)
  {
    assert [t][1..] == [];
  }

  /** The three spellings of a placeholder, written out. */
  function Spellings(name: string): string
  {
    ("{{.parameters." + name + "}}") + (("{{parameters." + name + "}}") + ("${parameters." + name + "}"))
  }

  /** All of them are replaced. */
  lemma AllSpellings(name: string, value: string, params: map<string, string>, after: string)
    requires Plaintext(name) && Harmless(value) && params == map[name := value]
    requires Substituted(params, Spellings(name), after)
    ensures after == value + (value + value)
  {
    var tokens := [Hole(Dotted, name), Hole(Plain, name), Hole(Shell, name)];
    RenderThree(tokens[0], tokens[1], tokens[2]);
    SpelledOut(name);
    SubstitutedTemplate(tokens, params, after);
    FilledSpellings(name, value, params);
    RenderThree(Text(value), Text(value), Text(value));
  }

  lemma SpelledOut(name: string)
    ensures Placeholder(Dotted, name) == "{{.parameters." + name + "}}"
    ensures Placeholder(Plain, name) == "{{parameters." + name + "}}"
    ensures Placeholder(Shell, name) == "${parameters." + name + "}"
  {
  }

  lemma FilledSpellings(name: string, value: string, params: map<string, string>)
    requires params == map[name := value]
    ensures Fill([Hole(Dotted, name), Hole(Plain, name), Hole(Shell, name)], params, params.Keys)
            == [Text(value), Text(value), Text(value)]
  {
  }

  // Which texts are harmless.

  /** A simple test: no opening brace stands at the end, or before a dot or the letter p. */
  predicate PlainBraces(s: string)
  {
    forall i :: 0 <= i < |s| && s[i] == '{' ==> i + 1 < |s| && s[i + 1] !in {'.', 'p'}
  }

  lemma CompletableBrace(s: string, i: int, form: Form, name: string)
    requires Completable(s, i, form, name)
    ensures s[i] == '{' && (i + 1 < |s| ==> s[i + 1] in {'.', 'p'})
  {
    PlaceholderStart(form, name);
    assert s[i..][0] == s[i];
    if i + 1 < |s| {
      assert s[i..][1] == s[i + 1];
    }
  }

  lemma PlainBracesHarmless(s: string)
    requires PlainBraces(s)
    ensures Harmless(s)
  {
    forall i, form, name | Completable(s, i, form, name)
      ensures false
    {
      CompletableBrace(s, i, form, name);
    }
  }

  /** The length of the part of s before its first brace or dollar sign. */
  function PlainLength(s: string): (n: nat)
    ensures n <= |s| && Plaintext(s[..n]) && (n < |s| ==> Special(s[n]))
  {
    if |s| == 0 || Special(s[0]) then 0
    else
      var n := PlainLength(s[1..]);
      assert s[..n + 1] == [s[0]] + s[1..][..n];
      n + 1
  }

  predicate Agree(a: string, b: string)
  {
    a <= b || b <= a
  }

  /** The exact test: s goes on like a placeholder from its second character on, up to the end of
      one of them. */
  predicate GoesOn(s: string, form: Form)
  {
    var opening := Opening(form)[1..];
    if |s| <= |opening| then s <= opening
    else
      && opening <= s
      && var rest := s[|opening|..]; Agree(rest[PlainLength(rest)..], Closing(form))
  }

  predicate HarmlessTest(s: string)
  {
    forall i, form | 0 <= i < |s| && form in {Dotted, Plain, Shell} :: !Threatens(s, i, form)
  }

  predicate Threatens(s: string, i: nat, form: Form)
  {
    i < |s| && (i > 0 ==> s[i - 1] == Opening(form)[0]) && GoesOn(s[i..], form)
  }

  lemma PlainLengthIs(s: string, name: string)
    requires name <= s && Plaintext(name) && (|name| < |s| ==> Special(s[|name|]))
    ensures PlainLength(s) == |name|
  {
    var n := PlainLength(s);
    assert forall k :: 0 <= k < n ==> s[..n][k] == s[k];
    assert forall k :: 0 <= k < |name| ==> s[k] == name[k];
  }

  lemma PlaceholderTail(form: Form, name: string)
    ensures Placeholder(form, name)[0] == Opening(form)[0]
    ensures Placeholder(form, name)[1..] == Opening(form)[1..] + (name + Closing(form))
  {
  }

  /** A text agrees with the rest of some placeholder exactly if it goes on like one. */
  lemma GoesOnName(s: string, form: Form) returns (name: string)
    requires GoesOn(s, form)
    ensures Plaintext(name) && Agree(s, Placeholder(form, name)[1..])
  {
    var opening := Opening(form)[1..];
    if |s| <= |opening| {
      name := "";
    } else {
      var rest := s[|opening|..];
      name := rest[..PlainLength(rest)];
      assert rest == name + rest[PlainLength(rest)..];
      assert s == opening + rest;
      AgreeFront(name, rest[PlainLength(rest)..], Closing(form));
      AgreeFront(opening, rest, name + Closing(form));
    }
    PlaceholderTail(form, name);
  }

  lemma AgreeFront(front: string, a: string, b: string)
    requires Agree(a, b)
    ensures Agree(front + a, front + b)
  {
  }

  lemma AgreeGoesOn(s: string, form: Form, name: string)
    requires Plaintext(name) && Agree(s, Placeholder(form, name)[1..])
    ensures GoesOn(s, form)
  {
    var opening := Opening(form)[1..];
    PlaceholderTail(form, name);
    if |s| > |opening| {
      var rest := s[|opening|..];
      assert s == opening + rest;
      AgreeTail(opening, rest, name + Closing(form));
      NameThenClosing(rest, name, Closing(form));
    } else {
      assert s <= opening + (name + Closing(form));
    }
  }

  lemma AgreeTail(front: string, a: string, b: string)
    requires Agree(front + a, front + b)
    ensures Agree(a, b)
  {
    assert (front + a)[|front|..] == a && (front + b)[|front|..] == b;
  }

  lemma NameThenClosing(rest: string, name: string, closing: string)
    requires Plaintext(name) && Agree(rest, name + closing) && |closing| > 0 && closing[0] == '}'
    ensures Agree(rest[PlainLength(rest)..], closing)
  {
    if |rest| <= |name| {
      assert rest <= name;
      PlainLengthIs(rest, rest);
    } else {
      assert name <= rest && rest[|name|] == (name + closing)[|name|];
      PlainLengthIs(rest, name);
      assert rest == name + rest[|name|..];
      AgreeTail(name, rest[|name|..], closing);
    }
  }

  /** The test decides. */
  lemma HarmlessIff(s: string)
    ensures Harmless(s) <==> HarmlessTest(s)
  {
    if Harmless(s) {
      forall i, form | 0 <= i < |s| && form in {Dotted, Plain, Shell}
        ensures !Threatens(s, i, form)
      {
        if Threatens(s, i, form) {
          var name := GoesOnName(s[i..], form);
          PlaceholderTail(form, name);
          assert Completable(s, i, form, name);
        }
      }
    }
    if HarmlessTest(s) {
      forall i, form, name | Completable(s, i, form, name)
        ensures false
      {
        PlaceholderTail(form, name);
        AgreeGoesOn(s[i..], form, name);
        assert Threatens(s, i, form);
      }
    }
  }

  // Exactness.

  /** All iteration orders of the map give the same result. */
  ghost predicate OrderIrrelevant(s: string, params: map<string, string>)
  {
    forall o1, o2 :: IterationOrder(params, o1) && IterationOrder(params, o2) ==>
      SubstituteInOrder(s, params, o1) == SubstituteInOrder(s, params, o2)
  }

  /** Plain names, and values that are harmless or this one. */
  ghost predicate ParamsWith(params: map<string, string>, v: string)
  {
    forall n :: n in params ==> Plaintext(n) && (params[n] == v || Harmless(params[n]))
  }

  lemma {:induction false} ReplaceGrows(s: string, pattern: string, value: string)
    requires |value| > |pattern| > 0
    ensures |ReplaceAll(s, pattern, value)| >= |s|
    ensures |ReplaceAll(s, pattern, value)| == |s| ==> ReplaceAll(s, pattern, value) == s
    decreases |s|
  {
    if |s| >= |pattern| {
      if s[..|pattern|] == pattern {
        ReplaceGrows(s[|pattern|..], pattern, value);
      } else {
        ReplaceGrows(s[1..], pattern, value);
      }
    }
  }

  lemma {:induction false} ReplaceGrowsAt(s: string, pattern: string, value: string, k: nat)
    requires |value| > |pattern| > 0 && k <= |s| && pattern <= s[k..]
    ensures |ReplaceAll(s, pattern, value)| > |s|
    decreases |s|
  {
    if s[..|pattern|] == pattern {
      ReplaceGrows(s[|pattern|..], pattern, value);
    } else {
      assert k > 0 && s[1..][k - 1..] == s[k..];
      ReplaceGrowsAt(s[1..], pattern, value, k - 1);
    }
  }

  /** A value that is longer than all placeholders of a name. */
  function LongValue(name: string): (x: string)
    ensures forall form :: |x| > |Placeholder(form, name)|
    ensures Plaintext(x)
  {
    seq(|name| + 17, _ => 'x')
  }

  /** Replacing placeholders by something longer changes a text that holds one. */
  lemma NameGrows(s: string, name: string, form: Form, k: nat)
    requires k <= |s| && Placeholder(form, name) <= s[k..]
    ensures |ReplaceName(s, name, LongValue(name))| > |s|
  {
    var x := LongValue(name);
    var s1 := ReplaceAll(s, Placeholder(Dotted, name), x);
    var s2 := ReplaceAll(s1, Placeholder(Plain, name), x);
    ReplaceGrows(s, Placeholder(Dotted, name), x);
    ReplaceGrows(s1, Placeholder(Plain, name), x);
    ReplaceGrows(s2, Placeholder(Shell, name), x);
    match form {
      case Dotted => ReplaceGrowsAt(s, Placeholder(form, name), x, k);
      case Plain =>
        if s1 == s {
          ReplaceGrowsAt(s1, Placeholder(form, name), x, k);
        }
      case Shell =>
        if s2 == s {
          ReplaceGrowsAt(s2, Placeholder(form, name), x, k);
        }
    }
  }

  // A placeholder between two texts.

  /** Replacing one placeholder in a text with a single placeholder in its middle. */
  lemma SandwichForm(left: string, a: string, right: string, form: Form, name: string, value: string)
    requires Plaintext(a) && Plaintext(name)
    requires NoMatchIn(left, Placeholder(Shell, a) + right, Placeholder(form, name))
    requires NoMatchIn(right, "", Placeholder(form, name))
    ensures ReplaceAll(left + (Placeholder(Shell, a) + right), Placeholder(form, name), value)
            == left + ((if form == Shell && a == name then value else Placeholder(Shell, a)) + right)
  {
    var pattern, hole := Placeholder(form, name), Placeholder(Shell, a);
    SkipText(left, hole + right, pattern, value);
    SkipText(right, "", pattern, value);
    assert right + "" == right;
    if form == Shell && a == name {
      assert (hole + right)[..|pattern|] == pattern;
      assert (hole + right)[|pattern|..] == right;
    } else {
      HoleHasNoMatch(Shell, a, right, form, name);
      SkipText(hole, right, pattern, value);
    }
  }

  /** The only placeholder of the whole text is the one in the middle. */
  ghost predicate OnlyMiddle(left: string, a: string, right: string)
  {
    forall form, name :: Plaintext(name) ==>
      && NoMatchIn(left, Placeholder(Shell, a) + right, Placeholder(form, name))
      && NoMatchIn(right, "", Placeholder(form, name))
  }

  lemma SandwichName(left: string, a: string, right: string, name: string, value: string)
    requires Plaintext(a) && Plaintext(name) && OnlyMiddle(left, a, right)
    ensures ReplaceName(left + (Placeholder(Shell, a) + right), name, value)
            == left + ((if a == name then value else Placeholder(Shell, a)) + right)
  {
    SandwichForm(left, a, right, Dotted, name, value);
    SandwichForm(left, a, right, Plain, name, value);
    SandwichForm(left, a, right, Shell, name, value);
  }

  /** If filling the middle closes up a placeholder of another name, the order matters. */
  lemma OrderMatters(left: string, a: string, right: string, value: string, b: string, form: Form, k: nat)
    requires Plaintext(a) && Plaintext(b) && a != b && OnlyMiddle(left, a, right)
    requires k <= |left + (value + right)| && Placeholder(form, b) <= (left + (value + right))[k..]
    ensures !OrderIrrelevant(left + (Placeholder(Shell, a) + right), map[a := value, b := LongValue(b)])
  {
    var params := map[a := value, b := LongValue(b)];
    var s := left + (Placeholder(Shell, a) + right);
    SandwichName(left, a, right, a, value);
    SandwichName(left, a, right, b, LongValue(b));
    NameGrows(left + (value + right), b, form, k);
    TwoNames(s, params, a, b);
    TwoNames(s, params, b, a);
    assert SubstituteInOrder(s, params, [a, b]) != SubstituteInOrder(s, params, [b, a]);
  }

  /** A harmless text that ends with the first character of this form. */
  function Lead(form: Form): (r: string)
    ensures |r| > 0 && r[|r| - 1] == Opening(form)[0]
  {
    if form == Shell then "$" else "x{"
  }

  lemma LeadHarmless(form: Form)
    ensures Harmless(Lead(form))
  {
    forall i, f, name | Completable(Lead(form), i, f, name)
      ensures false
    {
      CompletableBrace(Lead(form), i, f, name);
      PlaceholderStart(f, name);
    }
  }

  /** A placeholder from its third character on is harmless. */
  lemma EndHarmless(form: Form, name: string, j: nat)
    requires Plaintext(name) && 2 <= j <= |Placeholder(form, name)|
    ensures Harmless(Placeholder(form, name)[j..])
  {
    var end := Placeholder(form, name)[j..];
    forall i, f, n | Completable(end, i, f, n)
      ensures false
    {
      CompletableBrace(end, i, f, n);
      InsideHole(form, name, i + j);
    }
  }

  lemma HarmlessMiddle(left: string, a: string, right: string)
    requires Harmless(left) && Plaintext(a) && Harmless(right)
    ensures OnlyMiddle(left, a, right)
  {
    forall form, name | Plaintext(name)
      ensures NoMatchIn(left, Placeholder(Shell, a) + right, Placeholder(form, name))
      ensures NoMatchIn(right, "", Placeholder(form, name))
    {
      RenderTwo(Hole(Shell, a), Text(right));
      RenderStartsSafely([Hole(Shell, a), Text(right)]);
      TextHasNoMatch(left, Placeholder(Shell, a) + right, form, name);
      TextHasNoMatch(right, "", form, name);
    }
  }

  lemma RenderTwo(t: Token, u: Token)
    ensures Render([t, u]) == RenderToken(t) + RenderToken(u)
  {
    assert [t, u][1..] == [u];
    RenderSingle(u);
  }

  lemma RenderThree(t: Token, u: Token, v: Token)
    ensures Render([t, u, v]) == RenderToken(t) + (RenderToken(u) + RenderToken(v))
  {
    assert [t, u, v][1..] == [u, v];
    RenderTwo(u, v);
  }

  /** A value that can be completed to a placeholder is completed by some template whose literals
      are all harmless, and then the order matters. */
  lemma ValueOrderMatters(v: string, i: int, form: Form, b: string)
    returns (tokens: seq<Token>, params: map<string, string>)
    requires Completable(v, i, form, b)
    ensures Template(tokens) && ParamsWith(params, v) && !OrderIrrelevant(Render(tokens), params)
  {
    var left, right := Before(i, form), Missing(v, i, form, b);
    BeforeHarmless(i, form);
    PlainBracesHarmless("");
    MissingHarmless(v, i, form, b);
    tokens, params := [Text(left), Hole(Shell, Other(b)), Text(right)], TwoParams(b, v);
    RenderThree(Text(left), Hole(Shell, Other(b)), Text(right));
    ThreeTokens(Text(left), Hole(Shell, Other(b)), Text(right), "");
    ValueOrder(v, i, form, b);
    TwoParamsWith(b, v, v);
  }

  lemma ThreeTokens(a: Token, b: Token, c: Token, t: string)
    requires forall u | u in {a, b, c} :: if u.Text? then u.text == t || Harmless(u.text) else Plaintext(u.name)
    ensures TemplateWith([a, b, c], t) && (Harmless(t) ==> Template([a, b, c]))
  {
  }

  lemma TwoParamsWith(b: string, value: string, v: string)
    requires Plaintext(b) && (value == v || Harmless(value))
    ensures ParamsWith(TwoParams(b, value), v) && (Harmless(value) ==> PlainParams(TwoParams(b, value)))
  {
    LongHarmless(b);
  }

  lemma ValueOrder(v: string, i: int, form: Form, b: string)
    requires Completable(v, i, form, b)
    ensures !OrderIrrelevant(Before(i, form) + (Placeholder(Shell, Other(b)) + Missing(v, i, form, b)), TwoParams(b, v))
  {
    var left, right := Before(i, form), Missing(v, i, form, b);
    BeforeHarmless(i, form);
    MissingHarmless(v, i, form, b);
    HarmlessMiddle(left, Other(b), right);
    Completed(v, i, form, b, left, right);
    OrderMatters(left, Other(b), right, v, b, form, |left| + i - 1);
  }

  /** The parameter that fills the gap, and the one whose placeholder comes about. */
  function TwoParams(b: string, value: string): map<string, string>
  {
    map[Other(b) := value, b := LongValue(b)]
  }

  lemma BeforeHarmless(i: nat, form: Form)
    ensures Harmless(Before(i, form))
  {
    LeadHarmless(form);
    PlainBracesHarmless("");
  }

  lemma LongHarmless(name: string)
    ensures Harmless(LongValue(name))
  {
    PlainBracesHarmless(LongValue(name));
  }

  /** What a completable text lacks at its beginning. */
  function Before(i: nat, form: Form): string
  {
    if i > 0 then "" else Lead(form)
  }

  function Other(name: string): (r: string)
    ensures r != name && (Plaintext(name) ==> Plaintext(r))
  {
    name + "a"
  }

  /** What a completable text lacks at its end. */
  function Missing(s: string, i: nat, form: Form, name: string): string
    requires i < |s|
  {
    var tail := Placeholder(form, name)[1..];
    if |s| - i <= |tail| then tail[|s| - i..] else ""
  }

  lemma MissingHarmless(s: string, i: nat, form: Form, name: string)
    requires i < |s| && Plaintext(name)
    ensures Harmless(Missing(s, i, form, name))
  {
    var m := |s| - i;
    if m < |Placeholder(form, name)| {
      EndHarmless(form, name, m + 1);
      DropTwice(Placeholder(form, name), m);
    } else {
      PlainBracesHarmless("");
    }
  }

  lemma DropTwice(s: string, m: nat)
    requires m + 1 <= |s|
    ensures s[1..][m..] == s[m + 1..]
  {
  }

  /** The completion: the placeholder starts one character before the brace. */
  lemma Completed(v: string, i: int, form: Form, b: string, left: string, right: string)
    requires Completable(v, i, form, b)
    requires left == Before(i, form)
    requires v[i..] <= Placeholder(form, b)[1..] ==> right == Placeholder(form, b)[1..][|v| - i..]
    ensures Placeholder(form, b) <= (left + (v + right))[|left| + i - 1..]
  {
    var s, k := left + (v + right), |left| + i - 1;
    PlaceholderTail(form, b);
    Around(left, v, right, i);
    TailCompleted(v[i..], Placeholder(form, b)[1..], right);
    BeforeEnds(v, i, form, b);
    StartsWith(Placeholder(form, b), s, k);
  }

  lemma BeforeEnds(v: string, i: int, form: Form, b: string)
    requires Completable(v, i, form, b)
    ensures Placeholder(form, b)[0] == if i > 0 then v[i - 1] else Before(i, form)[|Before(i, form)| - 1]
  {
    PlaceholderTail(form, b);
  }

  /** What stands before and after the i-th place of v. */
  lemma Around(left: string, v: string, right: string, i: nat)
    requires i < |v| && |left| + i > 0
    ensures var s, k := left + (v + right), |left| + i - 1;
            s[k] == (if i > 0 then v[i - 1] else left[|left| - 1]) && s[k + 1..] == v[i..] + right
  {
  }

  lemma TailCompleted(t: string, tail: string, right: string)
    requires Agree(t, tail) && (t <= tail ==> right == tail[|t|..])
    ensures tail <= t + right
  {
    if t <= tail {
      assert t + right == tail;
    }
  }

  lemma StartsWith(pattern: string, s: string, k: nat)
    requires |pattern| > 0 && k < |s| && s[k] == pattern[0] && pattern[1..] <= s[k + 1..]
    ensures pattern <= s[k..]
  {
    assert s[k..] == [s[k]] + s[k + 1..];
    assert pattern == [pattern[0]] + pattern[1..];
  }

  /** Which values are safe, exactly: among harmless literals and values, a value leaves the result
      independent of the order, for all templates, if and only if it is harmless. */
  lemma ValueSafeIff(v: string)
    ensures Harmless(v) <==>
              forall tokens, params :: Template(tokens) && ParamsWith(params, v) ==>
                OrderIrrelevant(Render(tokens), params)
  {
    if Harmless(v) {
      forall tokens, params | Template(tokens) && ParamsWith(params, v)
        ensures OrderIrrelevant(Render(tokens), params)
      {
        PlainIrrelevant(tokens, params);
      }
    } else {
      var i, form, name :| Completable(v, i, form, name);
      var tokens, params := ValueOrderMatters(v, i, form, name);
    }
  }

  lemma PlainIrrelevant(tokens: seq<Token>, params: map<string, string>)
    requires Template(tokens) && PlainParams(params)
    ensures OrderIrrelevant(Render(tokens), params)
  {
    forall o1, o2 | IterationOrder(params, o1) && IterationOrder(params, o2)
      ensures SubstituteInOrder(Render(tokens), params, o1) == SubstituteInOrder(Render(tokens), params, o2)
    {
      SubstitutionIsStable(tokens, params, o1, o2);
    }
  }

  // Literals.

  /** The text holds no whole placeholder; as a literal it would be no literal otherwise. */
  ghost predicate NoPlaceholder(t: string)
  {
    forall form, name :: Plaintext(name) ==> NoMatchIn(t, "", Placeholder(form, name))
  }

  /** A template whose literals are harmless or this one. */
  ghost predicate TemplateWith(tokens: seq<Token>, t: string)
  {
    forall i :: 0 <= i < |tokens| ==>
      if tokens[i].Text? then tokens[i].text == t || Harmless(tokens[i].text) else Plaintext(tokens[i].name)
  }

  /** The literal holds the rest of a placeholder: an empty value closes the gap before it. */
  lemma RestOrderMatters(t: string, form: Form, b: string)
    returns (tokens: seq<Token>, params: map<string, string>)
    requires Completable(t, 0, form, b) && Placeholder(form, b)[1..] <= t && NoPlaceholder(t)
    ensures TemplateWith(tokens, t) && PlainParams(params) && !OrderIrrelevant(Render(tokens), params)
  {
    LeadHarmless(form);
    PlainBracesHarmless("");
    tokens, params := [Text(Lead(form)), Hole(Shell, Other(b)), Text(t)], TwoParams(b, "");
    RenderThree(Text(Lead(form)), Hole(Shell, Other(b)), Text(t));
    ThreeTokens(Text(Lead(form)), Hole(Shell, Other(b)), Text(t), t);
    TwoParamsWith(b, "", "");
    RestOrder(t, form, b);
  }

  lemma RestOrder(t: string, form: Form, b: string)
    requires Completable(t, 0, form, b) && Placeholder(form, b)[1..] <= t && NoPlaceholder(t)
    ensures !OrderIrrelevant(Lead(form) + (Placeholder(Shell, Other(b)) + t), TwoParams(b, ""))
  {
    var left := Lead(form);
    LeadBeforeHole(form, Other(b), t);
    RestCompleted(t, form, b);
    OrderMatters(left, Other(b), t, "", b, form, |left| - 1);
  }

  lemma RestCompleted(t: string, form: Form, b: string)
    requires Placeholder(form, b)[1..] <= t
    ensures Placeholder(form, b) <= (Lead(form) + ("" + t))[|Lead(form)| - 1..]
  {
    var s, k := Lead(form) + ("" + t), |Lead(form)| - 1;
    PlaceholderTail(form, b);
    assert "" + t == t;
    assert s[k + 1..] == t;
    StartsWith(Placeholder(form, b), s, k);
  }

  lemma LeadBeforeHole(form: Form, a: string, t: string)
    requires Plaintext(a) && NoPlaceholder(t)
    ensures OnlyMiddle(Lead(form), a, t)
  {
    forall f, name | Plaintext(name)
      ensures NoMatchIn(Lead(form), Placeholder(Shell, a) + t, Placeholder(f, name))
    {
      LeadNoMatch(form, Placeholder(Shell, a) + t, f, name);
    }
  }

  lemma LeadNoMatch(form: Form, rest: string, f: Form, name: string)
    requires |rest| > 0 && rest[0] == '$'
    ensures NoMatchIn(Lead(form), rest, Placeholder(f, name))
  {
    var lead := Lead(form);
    PlaceholderStart(f, name);
    forall k | 0 <= k < |lead|
      ensures !(Placeholder(f, name) <= (lead + rest)[k..])
    {
      if lead[k] == Placeholder(f, name)[0] {
        assert k == |lead| - 1 && (lead + rest)[k + 1..] == rest;
        assert Placeholder(f, name)[1..][0] == '{';
      }
      SplitAt(lead, rest, k, Placeholder(f, name));
    }
  }

  /** The literal breaks off inside a placeholder: a value supplies what it lacks. */
  lemma BrokenOrderMatters(t: string, i: nat, form: Form, b: string)
    returns (tokens: seq<Token>, params: map<string, string>)
    requires Completable(t, i, form, b) && |t| - i < |Placeholder(form, b)| - 1 && NoPlaceholder(t)
    ensures TemplateWith(tokens, t) && PlainParams(params) && !OrderIrrelevant(Render(tokens), params)
  {
    var left, value := Before(i, form), Missing(t, i, form, b);
    BeforeHarmless(i, form);
    MissingHarmless(t, i, form, b);
    tokens, params := [Text(left), Text(t), Hole(Shell, Other(b))], TwoParams(b, value);
    RenderThree(Text(left), Text(t), Hole(Shell, Other(b)));
    ThreeTokens(Text(left), Text(t), Hole(Shell, Other(b)), t);
    TwoParamsWith(b, value, value);
    BrokenOrder(t, i, form, b);
  }

  lemma BrokenOrder(t: string, i: nat, form: Form, b: string)
    requires Completable(t, i, form, b) && |t| - i < |Placeholder(form, b)| - 1 && NoPlaceholder(t)
    ensures !OrderIrrelevant(Before(i, form) + (t + Placeholder(Shell, Other(b))),
                             TwoParams(b, Missing(t, i, form, b)))
  {
    var left, value := Before(i, form), Missing(t, i, form, b);
    BrokenMiddle(t, i, form, b, Other(b));
    Completed(t, i, form, b, left, value);
    Regroup(left, t, Placeholder(Shell, Other(b)));
    Regroup(left, t, value);
    OrderMatters(left + t, Other(b), "", value, b, form, |left| + i - 1);
  }

  lemma Regroup(left: string, t: string, right: string)
    ensures left + (t + right) == (left + t) + (right + "")
  {
  }

  lemma BrokenMiddle(t: string, i: nat, form: Form, b: string, a: string)
    requires Completable(t, i, form, b) && |t| - i < |Placeholder(form, b)| - 1 && NoPlaceholder(t) && Plaintext(a)
    ensures OnlyMiddle(Before(i, form) + t, a, "")
  {
    var u := Before(i, form) + t;
    forall f, name | Plaintext(name)
      ensures NoMatchIn(u, Placeholder(Shell, a) + "", Placeholder(f, name))
    {
      forall k | 0 <= k < |u|
        ensures !(Placeholder(f, name) <= (u + (Placeholder(Shell, a) + ""))[k..])
      {
        BrokenAt(t, i, form, b, k, f, name);
        StopsAtDollar(u, Placeholder(Shell, a) + "", k, f, name);
      }
    }
  }

  lemma BrokenAt(t: string, i: nat, form: Form, b: string, k: nat, f: Form, name: string)
    requires Completable(t, i, form, b) && |t| - i < |Placeholder(form, b)| - 1 && NoPlaceholder(t)
    requires Plaintext(name) && k < |Before(i, form) + t|
    ensures !(Placeholder(f, name) <= (Before(i, form) + t)[k..])
  {
    var left := Before(i, form);
    if k >= |left| {
      NoPlaceholderAt(t, k - |left|, f, name);
      AfterLeft(left, t, k);
    } else {
      BrokenAtLead(t, form, b, k, f, name);
    }
  }

  lemma NoPlaceholderAt(t: string, k: nat, form: Form, name: string)
    requires NoPlaceholder(t) && Plaintext(name) && k < |t|
    ensures !(Placeholder(form, name) <= t[k..])
  {
    assert t + "" == t && NoMatchIn(t, "", Placeholder(form, name));
    assert !(Placeholder(form, name) <= (t + "")[k..]);
  }

  lemma AfterLeft(left: string, t: string, k: nat)
    requires |left| <= k <= |left + t|
    ensures (left + t)[k..] == t[k - |left|..]
  {
  }

  /** The text that was broken off, with its lead, holds no other placeholder there. */
  lemma BrokenAtLead(t: string, form: Form, b: string, k: nat, f: Form, name: string)
    requires Completable(t, 0, form, b) && |t| < |Placeholder(form, b)| - 1 && Plaintext(name)
    requires k < |Lead(form)|
    ensures !(Placeholder(f, name) <= (Lead(form) + t)[k..])
  {
    var pattern, u := Placeholder(form, b), Lead(form) + t;
    PlaceholderStart(f, name);
    assert u[k..][0] == Lead(form)[k];
    if k == |Lead(form)| - 1 {
      assert t[0..] == t && t <= pattern[1..];
      LeadThen(form, t, b);
      ProperPart(u[k..], form, b, f, name);
    }
  }

  lemma LeadThen(form: Form, t: string, b: string)
    requires t <= Placeholder(form, b)[1..] && |t| < |Placeholder(form, b)| - 1
    ensures var rest := (Lead(form) + t)[|Lead(form)| - 1..];
            rest <= Placeholder(form, b) && |rest| < |Placeholder(form, b)|
  {
    PlaceholderTail(form, b);
    LastAndAfter(Lead(form), t);
    SameFirst(Opening(form)[0], t, Placeholder(form, b));
  }

  lemma LastAndAfter(lead: string, t: string)
    requires |lead| > 0
    ensures (lead + t)[|lead| - 1..] == [lead[|lead| - 1]] + t
  {
  }

  lemma SameFirst(c: char, t: string, pattern: string)
    requires |pattern| > 0 && pattern[0] == c && t <= pattern[1..]
    ensures [c] + t <= pattern
  {
    assert pattern == [c] + pattern[1..];
  }

  /** No placeholder is a proper part of another one's beginning. */
  lemma ProperPart(u: string, form: Form, b: string, f: Form, name: string)
    requires u <= Placeholder(form, b) && |u| < |Placeholder(form, b)| && Plaintext(b) && Plaintext(name)
    ensures !(Placeholder(f, name) <= u)
  {
    if form != f || b != name {
      DifferentHoles(form, b, "", f, name);
      assert Placeholder(form, b) + "" == Placeholder(form, b);
    }
  }

  /** A placeholder does not reach over a dollar sign. */
  lemma StopsAtDollar(u: string, rest: string, k: nat, form: Form, name: string)
    requires k < |u| && Plaintext(name) && |rest| > 0 && rest[0] == '$'
    requires !(Placeholder(form, name) <= u[k..])
    ensures !(Placeholder(form, name) <= (u + rest)[k..])
  {
    var pattern, s := Placeholder(form, name), (u + rest)[k..];
    var m := |u| - k;
    assert s[m] == '$' && s[..m] == u[k..];
    PlaceholderStart(form, name);
    if m < |pattern| {
      if m > 1 {
        InsideHole(form, name, m);
      }
      assert pattern[m] != '$';
    } else {
      assert s[..|pattern|] == s[..m][..|pattern|];
    }
  }

  /** Which literals are safe, exactly: a literal without a whole placeholder leaves the result
      independent of the order, among harmless literals and values, if and only if it is
      harmless. */
  lemma LiteralSafeIff(t: string)
    requires NoPlaceholder(t)
    ensures Harmless(t) <==>
              forall tokens, params :: TemplateWith(tokens, t) && PlainParams(params) ==>
                OrderIrrelevant(Render(tokens), params)
  {
    if Harmless(t) {
      forall tokens, params | TemplateWith(tokens, t) && PlainParams(params)
        ensures OrderIrrelevant(Render(tokens), params)
      {
        PlainIrrelevant(tokens, params);
      }
    } else {
      var i, form, name :| Completable(t, i, form, name);
      if |t| - i < |Placeholder(form, name)| - 1 {
        var tokens, params := BrokenOrderMatters(t, i, form, name);
      } else {
        WholeFromStart(t, i, form, name);
        var tokens, params := RestOrderMatters(t, form, name);
      }
    }
  }

  lemma WholeFromStart(t: string, i: nat, form: Form, name: string)
    requires Completable(t, i, form, name) && |t| - i >= |Placeholder(form, name)| - 1 && NoPlaceholder(t)
    ensures i == 0 && Placeholder(form, name)[1..] <= t
  {
    var tail := Placeholder(form, name)[1..];
    assert tail <= t[i..];
    if i > 0 {
      NoPlaceholderAt(t, i - 1, form, name);
      StartsWith(Placeholder(form, name), t, i - 1);
    }
    assert t[0..] == t;
  }

  // Containers.

  datatype EnvVar = EnvVar(name: string, value: string)

  class Container {
    var command: seq<string>
    var args: seq<string>
    var env: seq<EnvVar>

    constructor (command: seq<string>, args: seq<string>, env: seq<EnvVar>)
      ensures this.command == command && this.args == args && this.env == env
    {
      this.command, this.args, this.env := command, args, env;
    }
  }

  ghost predicate AllSubstituted(params: map<string, string>, before: seq<string>, after: seq<string>)
  {
    |after| == |before| && forall j :: 0 <= j < |before| ==> Substituted(params, before[j], after[j])
  }

  /** The container's strings are edited in place, each with an iteration order of its own;
      empty environment values are left alone. */
  method ApplyParametersToContainer(c: Container, params: map<string, string>)
    modifies c
    ensures AllSubstituted(params, old(c.command), c.command)
    ensures AllSubstituted(params, old(c.args), c.args)
    ensures |c.env| == |old(c.env)|
    ensures forall j :: 0 <= j < |c.env| ==>
              && c.env[j].name == old(c.env)[j].name
              && if old(c.env)[j].value == "" then c.env[j].value == ""
                  else Substituted(params, old(c.env)[j].value, c.env[j].value)
  {
    for j := 0 to |c.command|
      modifies c
      invariant |c.command| == |old(c.command)| && c.args == old(c.args) && c.env == old(c.env)
      invariant forall k :: 0 <= k < j ==> Substituted(params, old(c.command)[k], c.command[k])
      invariant forall k :: j <= k < |c.command| ==> c.command[k] == old(c.command)[k]
    {
      var r := SubstituteParameter(c.command[j], params);
      c.command := c.command[j := r];
    }
    for j := 0 to |c.args|
      modifies c
      invariant |c.args| == |old(c.args)| && c.env == old(c.env) && AllSubstituted(params, old(c.command), c.command)
      invariant forall k :: 0 <= k < j ==> Substituted(params, old(c.args)[k], c.args[k])
      invariant forall k :: j <= k < |c.args| ==> c.args[k] == old(c.args)[k]
    {
      var r := SubstituteParameter(c.args[j], params);
      c.args := c.args[j := r];
    }
    for j := 0 to |c.env|
      modifies c
      invariant |c.env| == |old(c.env)|
      invariant AllSubstituted(params, old(c.command), c.command) && AllSubstituted(params, old(c.args), c.args)
      invariant forall k :: 0 <= k < j ==>
        && c.env[k].name == old(c.env)[k].name
        && if old(c.env)[k].value == "" then c.env[k].value == ""
            else Substituted(params, old(c.env)[k].value, c.env[k].value)
      invariant forall k :: j <= k < |c.env| ==> c.env[k] == old(c.env)[k]
    {
      if c.env[j].value != "" {
        var r := SubstituteParameter(c.env[j].value, params);
        c.env := c.env[j := c.env[j].(value := r)];
      }
    }
  }

  /** For plain parameters an edited template is the filled template, whatever the orders. */
  lemma SubstitutedTemplate(tokens: seq<Token>, params: map<string, string>, after: string)
    requires Template(tokens) && PlainParams(params) && Substituted(params, Render(tokens), after)
    ensures after == Render(Fill(tokens, params, params.Keys))
  {
    var order :| IterationOrder(params, order) && after == SubstituteInOrder(Render(tokens), params, order);
    OrderFills(tokens, params, order);
  }
}
