/** The "stepName:$.path" notation: validateJSONPath of pkg/validation/validator_enhanced.go and
    parseJSONPathWithStepName of pkg/controller/parameters.go. */
module JsonPath {
  import opened Types

  /** strings.Index for a single character. */
  function IndexOf(s: string, c: char): (r: Option<nat>)
    ensures r.Some? ==> r.value < |s| && s[r.value] == c && c !in s[..r.value]
    ensures r.None? ==> c !in s
  {
    if |s| == 0 then None
    else if s[0] == c then Some(0)
    else
      match IndexOf(s[1..], c)
      case None => None
      case Some(i) => assert s[..i + 1] == [s[0]] + s[1..][..i]; Some(i + 1)
  }

  lemma {:induction false} IndexOfIs(s: string, c: char, i: nat)
    requires i < |s| && s[i] == c && c !in s[..i]
    ensures IndexOf(s, c) == Some(i)
    decreases i
  {
    if i > 0 {
      assert s[0] == s[..i][0];
      assert s[1..][..i - 1] == s[..i][1..];
      IndexOfIs(s[1..], c, i - 1);
    }
  }

  /** unicode.IsSpace. */
  predicate IsSpace(c: char)
  {
    || '\t' <= c <= '\r' || c == ' '
    || c == '\U{85}' || c == '\U{A0}' || c == '\U{1680}' || '\U{2000}' <= c <= '\U{200A}'
    || c == '\U{2028}' || c == '\U{2029}' || c == '\U{202F}' || c == '\U{205F}' || c == '\U{3000}'
  }

  function TrimLeft(s: string): string
  {
    if |s| > 0 && IsSpace(s[0]) then TrimLeft(s[1..]) else s
  }

  function TrimRight(s: string): string
  {
    if |s| > 0 && IsSpace(s[|s| - 1]) then TrimRight(s[..|s| - 1]) else s
  }

  /** strings.TrimSpace. */
  function TrimSpace(s: string): string
  {
    TrimRight(TrimLeft(s))
  }

  ghost predicate Trimmed(s: string)
  {
    |s| > 0 ==> !IsSpace(s[0]) && !IsSpace(s[|s| - 1])
  }

  ghost predicate Blank(s: string)
  {
    forall i :: 0 <= i < |s| ==> IsSpace(s[i])
  }

  lemma TrimmedStays(s: string)
    requires Trimmed(s)
    ensures TrimSpace(s) == s
  {
  }

  /** Trimming takes white space off both ends, and all of it. */
  lemma {:induction false} TrimSpaceTrims(s: string) returns (before: string, after: string)
    ensures s == before + TrimSpace(s) + after && Blank(before) && Blank(after)
    ensures Trimmed(TrimSpace(s))
    decreases |s|
  {
    if |s| > 0 && IsSpace(s[0]) {
      before, after := TrimSpaceTrims(s[1..]);
      before := [s[0]] + before;
      assert s == [s[0]] + s[1..];
    } else {
      TrimRightTrims(s);
      before, after := "", s[|TrimRight(s)|..];
    }
  }

  lemma {:induction false} TrimRightTrims(s: string)
    requires |s| > 0 ==> !IsSpace(s[0])
    ensures Trimmed(TrimRight(s)) && TrimRight(s) <= s && Blank(s[|TrimRight(s)|..])
    ensures |s| > 0 ==> |TrimRight(s)| > 0
    decreases |s|
  {
    if |s| > 0 && IsSpace(s[|s| - 1]) {
      var front := s[..|s| - 1];
      TrimRightTrims(front);
      assert s[|TrimRight(s)|..] == front[|TrimRight(s)|..] + [s[|s| - 1]];
    }
  }

  /** parseJSONPathWithStepName. */
  function ParseJSONPathWithStepName(s: string): (string, string)
  {
    match IndexOf(s, ':')
    case Some(colon) =>
      if 0 < colon < |s| - 1 then
        var after := s[colon + 1..];
        if "$" <= TrimSpace(after) then (TrimSpace(s[..colon]), TrimSpace(after)) else ("", s)
      else ("", s)
    case None => ("", s)
  }

  // IsDNS1123Subdomain.

  predicate Alphanumeric(c: char)
  {
    'a' <= c <= 'z' || '0' <= c <= '9'
  }

  /** A label in the sense of RFC 1123 section 2.1, in lower case and of any length. */
  predicate Label(s: string)
  {
    && |s| > 0 && Alphanumeric(s[0]) && Alphanumeric(s[|s| - 1])
    && forall i :: 0 <= i < |s| ==> Alphanumeric(s[i]) || s[i] == '-'
  }

  /** Labels separated by dots. */
  predicate Labels(s: string)
    decreases |s|
  {
    match IndexOf(s, '.')
    case None => Label(s)
    case Some(dot) => Label(s[..dot]) && Labels(s[dot + 1..])
  }

  predicate IsDNS1123Subdomain(s: string)
  {
    |s| <= 253 && Labels(s)
  }

  predicate NameChar(c: char)
  {
    Alphanumeric(c) || c == '-' || c == '.'
  }

  /** Every dot stands between two letters or digits. */
  ghost predicate DotsInside(s: string)
  {
    forall i :: 0 <= i < |s| && s[i] == '.' ==> 0 < i < |s| - 1 && Alphanumeric(s[i - 1]) && Alphanumeric(s[i + 1])
  }

  ghost predicate SubdomainShape(s: string)
  {
    && |s| > 0 && Alphanumeric(s[0]) && Alphanumeric(s[|s| - 1])
    && (forall i :: 0 <= i < |s| ==> NameChar(s[i]))
    && DotsInside(s)
  }

  /** In terms of characters: labels separated by dots are the nonempty texts of letters,
      digits, hyphens and dots that start and end with a letter or digit, as does every part
      between dots. */
  lemma {:induction false} LabelsShape(s: string)
    ensures Labels(s) <==> SubdomainShape(s)
    decreases |s|
  {
    match IndexOf(s, '.')
    case None =>
      if SubdomainShape(s) {
        assert forall i :: 0 <= i < |s| ==> NameChar(s[i]) && s[i] != '.';
      }
    case Some(dot) =>
      LabelsShape(s[dot + 1..]);
      ShapeSplits(s, dot);
  }

  /** By code points: a to z and 0 to 9. */
  predicate LetterOrDigit(c: char)
  {
    97 <= c as int <= 122 || 48 <= c as int <= 57
  }

  /** The names of steps that the validator accepts, written out. */
  lemma SubdomainIff(s: string)
    ensures IsDNS1123Subdomain(s) <==>
              && 1 <= |s| <= 253
              && (forall i :: 0 <= i < |s| ==> LetterOrDigit(s[i]) || s[i] in {'-', '.'})
              && (forall i :: 0 <= i < |s| && !LetterOrDigit(s[i]) ==> 0 < i < |s| - 1)
              && (forall i :: 0 < i < |s| - 1 && s[i] == '.' ==> LetterOrDigit(s[i - 1]) && LetterOrDigit(s[i + 1]))
  {
    LabelsShape(s);
    assert forall c :: Alphanumeric(c) <==> LetterOrDigit(c);
  }

  lemma ShapeSplits(s: string, dot: nat)
    requires dot < |s| && s[dot] == '.' && '.' !in s[..dot]
    ensures SubdomainShape(s) <==> Label(s[..dot]) && SubdomainShape(s[dot + 1..])
  {
    var a, b := s[..dot], s[dot + 1..];
    assert forall i :: 0 <= i < dot ==> a[i] == s[i];
    assert forall i :: 0 <= i < |b| ==> b[i] == s[dot + 1 + i];
    if SubdomainShape(s) {
      forall i | 0 <= i < dot
        ensures Alphanumeric(a[i]) || a[i] == '-'
      {
        assert NameChar(s[i]) && a[i] in s[..dot];
      }
      forall i | 0 <= i < |b|
        ensures NameChar(b[i])
        ensures b[i] == '.' ==> 0 < i < |b| - 1 && Alphanumeric(b[i - 1]) && Alphanumeric(b[i + 1])
      {
        assert NameChar(s[dot + 1 + i]);
      }
    }
    if Label(a) && SubdomainShape(b) {
      forall i | 0 <= i < |s|
        ensures NameChar(s[i])
        ensures s[i] == '.' ==> 0 < i < |s| - 1 && Alphanumeric(s[i - 1]) && Alphanumeric(s[i + 1])
      {
        if i < dot {
          assert a[i] == s[i];
        } else if i > dot {
          assert NameChar(b[i - dot - 1]);
        }
      }
    }
  }

  lemma NameHasNoColon(name: string)
    requires IsDNS1123Subdomain(name)
    ensures |name| > 0 && ':' !in name && Trimmed(name) && name[0] != '$'
  {
    LabelsShape(name);
  }

  datatype PathError = EmptyPath | NoDollarNoColon | InvalidStepName | PathWithoutDollar

  /** validateJSONPath; None is acceptance. */
  function ValidateJSONPath(s: string): Option<PathError>
  {
    if s == "" then Some(EmptyPath)
    else if !("$" <= s) && ':' !in s then Some(NoDollarNoColon)
    else
      match IndexOf(s, ':')
      case Some(colon) =>
        if !IsDNS1123Subdomain(s[..colon]) then Some(InvalidStepName)
        else if !("$" <= s[colon + 1..]) then Some(PathWithoutDollar)
        else None
      case None => if !("$" <= s) then Some(PathWithoutDollar) else None
  }

  /** A name, a colon and a path. */
  function Render(name: string, path: string): string
  {
    name + ":" + path
  }

  lemma RenderSplits(name: string, path: string)
    requires ':' !in name
    ensures IndexOf(Render(name, path), ':') == Some(|name|)
    ensures Render(name, path)[..|name|] == name && Render(name, path)[|name| + 1..] == path
  {
    assert Render(name, path)[..|name|] == name;
    IndexOfIs(Render(name, path), ':', |name|);
  }

  /** What validateJSONPath accepts: a path starting with a dollar sign that holds no colon, or
      such a path, with or without colons, behind the name of a step. */
  lemma AcceptedIff(s: string)
    ensures ValidateJSONPath(s).None?
            <==> || ("$" <= s && ':' !in s)
                 || exists name, path :: s == Render(name, path) && IsDNS1123Subdomain(name) && "$" <= path
  {
    if ValidateJSONPath(s).None? && ':' in s {
      var colon := IndexOf(s, ':').value;
      assert s == Render(s[..colon], s[colon + 1..]);
    }
    forall name, path | s == Render(name, path) && IsDNS1123Subdomain(name) && "$" <= path
      ensures ValidateJSONPath(s).None?
    {
      NameHasNoColon(name);
      RenderSplits(name, path);
    }
  }

  lemma TrimPath(path: string)
    requires "$" <= path
    ensures "$" <= TrimSpace(path) <= path
    ensures TrimSpace(path) == path <==> !IsSpace(path[|path| - 1])
  {
    TrimRightTrims(path);
    assert TrimRight(path)[0] == path[0];
  }

  /** Round trip: for every DNS-1123 name and every path that starts with a dollar sign, even
      one holding colons, the notation is valid, and the parser gives back the name and the
      path exactly when the path does not end in white space. */
  lemma RoundTrip(name: string, path: string)
    requires IsDNS1123Subdomain(name) && "$" <= path
    ensures ValidateJSONPath(Render(name, path)).None?
    ensures ParseJSONPathWithStepName(Render(name, path)) == (name, path) <==> !IsSpace(path[|path| - 1])
  {
    NameHasNoColon(name);
    RenderSplits(name, path);
    TrimmedStays(name);
    TrimPath(path);
  }

  /** The parser splits s at the colon, and its path is the text behind it exactly when no
      white space ends it. */
  ghost predicate SplitsAt(s: string, colon: nat)
  {
    && colon < |s| && s[colon] == ':'
    && var (name, path) := ParseJSONPathWithStepName(s);
       && name == s[..colon] != ""
       && "$" <= path <= s[colon + 1..]
       && (path == s[colon + 1..] <==> !IsSpace(s[|s| - 1]))
  }

  /** On every text the validator accepts the parser agrees with it: they split at the same
      colon, and a text without a colon has no step name for either. */
  lemma ParserAgreesWithValidator(s: string)
    requires ValidateJSONPath(s).None?
    ensures match IndexOf(s, ':')
            case None => ParseJSONPathWithStepName(s) == ("", s)
            case Some(colon) => IsDNS1123Subdomain(s[..colon]) && SplitsAt(s, colon)
  {
    if IndexOf(s, ':').Some? {
      var colon := IndexOf(s, ':').value;
      NameHasNoColon(s[..colon]);
      TrimmedStays(s[..colon]);
      TrimPath(s[colon + 1..]);
      assert s[colon + 1..][|s| - colon - 2] == s[|s| - 1];
    }
  }

  /** The parser's own results are a normal form: whatever text gave a step name, writing
      the two parts out again and parsing them gives the same parts. */
  lemma ParsedIsNormal(s: string)
    requires ParseJSONPathWithStepName(s).0 != ""
    ensures var (name, path) := ParseJSONPathWithStepName(s);
            && "$" <= path
            && ParseJSONPathWithStepName(Render(name, path)) == (name, path)
            && (ValidateJSONPath(Render(name, path)).None? <==> IsDNS1123Subdomain(name))
  {
    var (name, path) := ParseJSONPathWithStepName(s);
    var colon := IndexOf(s, ':').value;
    var a, b := TrimSpaceTrims(s[..colon]);
    var c, d := TrimSpaceTrims(s[colon + 1..]);
    forall i | 0 <= i < |name|
      ensures name[i] != ':'
    {
      assert name[i] == s[..colon][|a| + i];
    }
    RenderSplits(name, path);
    TrimmedStays(name);
    TrimmedStays(path);
  }

  /** core is the text without the white space at its ends. */
  ghost predicate Core(s: string, core: string)
  {
    exists a, b :: Blank(a) && Blank(b) && Trimmed(core) && s == a + core + b
  }

  /** Apart from white space the text begins with a dollar sign. */
  ghost predicate DollarFirst(s: string)
  {
    exists k :: 0 <= k < |s| && s[k] == '$' && Blank(s[..k])
  }

  /** What the parser makes of any text: it is split at its first colon if there is something before
      it and, but for white space, a dollar sign comes next; otherwise it is left whole. */
  lemma ParserMeans(s: string)
    ensures var (name, path) := ParseJSONPathWithStepName(s);
            match IndexOf(s, ':')
            case None => (name, path) == ("", s)
            case Some(colon) =>
              if colon > 0 && DollarFirst(s[colon + 1..]) then Core(s[..colon], name) && Core(s[colon + 1..], path)
              else (name, path) == ("", s)
  {
    if IndexOf(s, ':').Some? {
      var colon := IndexOf(s, ':').value;
      CoreOfTrim(s[..colon]);
      CoreOfTrim(s[colon + 1..]);
      DollarAfterTrim(s[colon + 1..]);
    }
  }

  lemma CoreOfTrim(s: string)
    ensures Core(s, TrimSpace(s))
  {
    var a, b := TrimSpaceTrims(s);
  }

  lemma DollarAfterTrim(s: string)
    ensures "$" <= TrimSpace(s) <==> DollarFirst(s)
  {
    var a, b := TrimSpaceTrims(s);
    var core := TrimSpace(s);
    if "$" <= core {
      assert s[|a|] == core[0] && s[..|a|] == a;
    }
    if k :| 0 <= k < |s| && s[k] == '$' && Blank(s[..k]) {
      DollarInCore(s, a, core, b, k);
    }
  }

  lemma DollarInCore(s: string, a: string, core: string, b: string, k: nat)
    requires s == a + core + b && Blank(a) && Blank(b) && Trimmed(core)
    requires k < |s| && s[k] == '$' && Blank(s[..k])
    ensures "$" <= core
  {
    assert forall i :: 0 <= i < |a| ==> s[i] == a[i];
    assert forall i :: |a| + |core| <= i < |s| ==> s[i] == b[i - |a| - |core|];
    assert forall i :: 0 <= i < k ==> s[..k][i] == s[i];
    assert |core| > 0 ==> s[|a|] == core[0];
    assert k == |a|;
  }
}
