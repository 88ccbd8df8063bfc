/** The substitution of URL variables, on the characters of a URL: what becomes of text, of a reference to a
    variable, and of everything that only looks like one. Together these rules say it for every URL. */
module UrlExpansion {
  import opened Wrappers
  import opened UrlSubstitution

  /** A digit or a letter of the ASCII alphabet. */
  predicate Alphanumeric(c: char) {
    ('0' <= c && c <= '9') || ('A' <= c && c <= 'Z') || ('a' <= c && c <= 'z')
  }

  /** The text from k on goes on with a name: an alphanumeric character, or an underscore before one. */
  predicate GoesOn(s: string, k: nat) {
    k < |s| && (Alphanumeric(s[k]) || (s[k] == '_' && k + 1 < |s| && Alphanumeric(s[k + 1])))
  }

  /** All of the text can be in one name. */
  ghost predicate IsName(name: string) {
    forall k :: 0 <= k < |name| ==> GoesOn(name, k)
  }

  lemma GoesOnIsNameAt(s: string, k: nat)
    ensures GoesOn(s, k) <==> NameAt(s, k)
  {
  }

  // ---------------------------------------------------------------- what stands before does not matter

  lemma {:induction false} NameEndLater(p: string, s: string, i: nat)
    requires i <= |s|
    ensures NameEnd(p + s, |p| + i) == |p| + NameEnd(s, i)
    decreases |s| - i
  {
    assert NameAt(p + s, |p| + i) == NameAt(s, i);
    if NameAt(s, i) {
      NameEndLater(p, s, i + 1);
    }
  }

  lemma ReferenceLater(p: string, s: string, i: nat)
    requires i < |s|
    ensures Bracketed(p + s, |p| + i) == Bracketed(s, i)
    ensures VarStart(p + s, |p| + i) == |p| + VarStart(s, i) && VarEnd(p + s, |p| + i) == |p| + VarEnd(s, i)
    ensures Reference(p + s, |p| + i) == Reference(s, i)
  {
    var whole := p + s;
    assert forall k :: 0 <= k < |s| ==> whole[|p| + k] == s[k];
    NameEndLater(p, s, VarStart(s, i));
    var (start, end) := (VarStart(s, i), VarEnd(s, i));
    assert whole[|p| + start..|p| + end] == s[start..end];
  }

  /** Where the scanner goes on after a '$', and what it puts. */
  function Piece(s: string, i: nat, m: map<string, string>): (r: (string, nat))
    requires i < |s|
    ensures i < r.1 <= |s|
  {
    if s[i] != '$' then ([s[i]], i + 1)
    else
      var name := Reference(s, i);
      if name.Some? && name.value in m then (m[name.value], if Bracketed(s, i) then VarEnd(s, i) + 1 else VarEnd(s, i))
      else (s[i..VarEnd(s, i)], VarEnd(s, i))
  }

  lemma PieceIsPut(s: string, i: nat, m: map<string, string>, piece: string, next: nat, rest: string)
    requires i < |s| && (piece, next) == Piece(s, i, m) && rest == Expand(s, next, m)
    ensures Expand(s, i, m) == piece + rest
  {
  }

  lemma PieceLater(p: string, s: string, i: nat, m: map<string, string>, whole: string, piece: string, next: nat)
    requires i < |s| && whole == p + s && (piece, next) == Piece(s, i, m)
    ensures Piece(whole, |p| + i, m) == (piece, |p| + next)
  {
    assert whole[|p| + i] == s[i];
    ReferenceLater(p, s, i);
    assert whole[|p| + i..|p| + VarEnd(s, i)] == s[i..VarEnd(s, i)];
  }

  lemma {:induction false} ExpandLater(p: string, s: string, i: nat, m: map<string, string>, whole: string)
    returns (out: string)
    requires i <= |s| && whole == p + s
    ensures out == Expand(whole, |p| + i, m) == Expand(s, i, m)
    decreases |s| - i
  {
    if i == |s| {
      out := "";
    } else {
      var (piece, next) := Piece(s, i, m);
      var rest := ExpandLater(p, s, next, m, whole);
      PieceLater(p, s, i, m, whole, piece, next);
      PieceIsPut(s, i, m, piece, next, rest);
      PieceIsPut(whole, |p| + i, m, piece, |p| + next, rest);
      out := piece + rest;
    }
  }

  // ---------------------------------------------------------------- where a name ends

  lemma {:induction false} NameEndIs(s: string, i: nat, end: nat)
    requires i <= end <= |s| && !NameAt(s, end) && forall k :: i <= k < end ==> NameAt(s, k)
    ensures NameEnd(s, i) == end
    decreases end - i
  {
    if i < end {
      NameEndIs(s, i + 1, end);
    }
  }

  /** The name after the opening characters, when the rest does not go on with it. */
  lemma NameIsRead(open: string, name: string, rest: string, s: string)
    requires IsName(name) && !GoesOn(rest, 0) && s == open + name + rest
    ensures NameEnd(s, |open|) == |open| + |name| && s[|open|..|open| + |name|] == name
  {
    var end := |open| + |name|;
    assert forall k :: 0 <= k < |name| ==> s[|open| + k] == name[k];
    assert forall k :: 0 <= k < |rest| ==> s[end + k] == rest[k];
    forall k | |open| <= k < end
      ensures NameAt(s, k)
    {
      assert GoesOn(name, k - |open|);
      GoesOnIsNameAt(s, k);
    }
    GoesOnIsNameAt(s, end);
    NameEndIs(s, |open|, end);
  }

  // ---------------------------------------------------------------- the rules

  /** A variable with a value is replaced by it, up to where its name ends. */
  lemma KnownVariable(name: string, rest: string, m: map<string, string>)
    requires name != "" && IsName(name) && !GoesOn(rest, 0) && name in m
    ensures Expand("$" + name + rest, 0, m) == m[name] + Expand(rest, 0, m)
  {
    var s := "$" + name + rest;
    assert s[1] == name[0] && GoesOn(name, 0);
    NameIsRead("$", name, rest, s);
    var later := ExpandLater("$" + name, rest, 0, m, s);
  }

  /** In braces it is replaced together with them. */
  lemma KnownInBraces(name: string, rest: string, m: map<string, string>)
    requires name != "" && IsName(name) && name in m
    ensures Expand("${" + name + "}" + rest, 0, m) == m[name] + Expand(rest, 0, m)
  {
    var s := "${" + name + "}" + rest;
    assert s == "${" + name + ("}" + rest);
    NameIsRead("${", name, "}" + rest, s);
    assert s[2 + |name|] == '}';
    var later := ExpandLater("${" + name + "}", rest, 0, m, s);
  }

  /** A name without a value, or a '$' without a name, stays as it is. */
  lemma UnknownVariable(name: string, rest: string, m: map<string, string>)
    requires IsName(name) && !GoesOn(rest, 0) && (name == "" || name !in m)
    requires name == "" && rest != "" ==> rest[0] != '{'
    ensures Expand("$" + name + rest, 0, m) == "$" + name + Expand(rest, 0, m)
  {
    var s := "$" + name + rest;
    assert name != "" ==> s[1] == name[0] && GoesOn(name, 0);
    assert name == "" && rest != "" ==> s[1] == rest[0];
    NameIsRead("$", name, rest, s);
    assert s[0..1 + |name|] == "$" + name;
    var later := ExpandLater("$" + name, rest, 0, m, s);
  }

  /** So does an opening brace without a known name that is closed. */
  lemma UnknownInBraces(name: string, rest: string, m: map<string, string>)
    requires IsName(name) && !GoesOn(rest, 0)
    requires name == "" || name !in m || rest == "" || rest[0] != '}'
    ensures Expand("${" + name + rest, 0, m) == "${" + name + Expand(rest, 0, m)
  {
    var s := "${" + name + rest;
    NameIsRead("${", name, rest, s);
    assert rest != "" ==> s[2 + |name|] == rest[0];
    assert s[0..2 + |name|] == "${" + name;
    var later := ExpandLater("${" + name, rest, 0, m, s);
  }

  /** Text up to the next '$' is copied. */
  lemma PlainText(text: string, rest: string, m: map<string, string>)
    requires '$' !in text
    ensures Expand(text + rest, 0, m) == text + Expand(rest, 0, m)
  {
    var s := text + rest;
    assert forall k :: 0 <= k < |text| ==> s[k] == text[k];
    TextIsCopied(s, 0, |text|, m);
    assert s[0..|text|] == text;
    var later := ExpandLater(text, rest, 0, m, s);
  }
}
