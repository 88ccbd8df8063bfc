/** librepo/url_substitution.c: the one-pass scanner for $name and ${name}, and the variable list. */
module UrlSubstitution {
  import opened Wrappers

  datatype Var = Var(name: string, val: string)

  // ---------------------------------------------------------------- the variable list

  ghost predicate UniqueNames(list: seq<Var>) {
    forall i, j :: 0 <= i < j < |list| ==> list[i].name != list[j].name
  }

  function Find(list: seq<Var>, name: string): Option<string> {
    if list == [] then None
    else if list[0].name == name then Some(list[0].val)
    else Find(list[1..], name)
  }

  lemma {:induction false} FindAt(list: seq<Var>, k: nat)
    requires UniqueNames(list) && k < |list|
    ensures Find(list, list[k].name) == Some(list[k].val)
  {
    if k > 0 {
      FindAt(list[1..], k - 1);
    }
  }

  lemma {:induction false} FindMissing(list: seq<Var>, name: string)
    ensures Find(list, name).None? <==> forall k :: 0 <= k < |list| ==> list[k].name != name
  {
    if list != [] {
      FindMissing(list[1..], name);
      assert forall k :: 1 <= k < |list| ==> list[k] == list[1..][k - 1];
    }
  }

  /** What a list means. */
  ghost predicate Denotes(list: seq<Var>, m: map<string, string>) {
    UniqueNames(list) && forall name: string :: Find(list, name) == (if name in m then Some(m[name]) else None)
  }

  function Updated(m: map<string, string>, name: string, value: Option<string>): map<string, string> {
    if value.None? then m - {name} else m[name := value.value]
  }

  /** lr_urlvars_set: removes, replaces or prepends. */
  method UrlvarsSet(list: seq<Var>, name: string, value: Option<string>, ghost m: map<string, string>)
    returns (ret: seq<Var>)
    requires Denotes(list, m)
    ensures Denotes(ret, Updated(m, name, value))
    ensures Find(ret, name) == value && forall other: string :: other != name ==> Find(ret, other) == Find(list, other)
  {
    var k := 0;
    while k < |list|
      invariant 0 <= k <= |list| && forall j :: 0 <= j < k ==> list[j].name != name
    {
      if list[k].name == name {
        if value.None? {
          ret := list[..k] + list[k + 1..];
        } else {
          ret := list[k := list[k].(val := value.value)];
        }
        SetAt(list, k, value, ret, m);
        return;
      }
      k := k + 1;
    }
    FindMissing(list, name);
    if value.None? {
      ret := list;
    } else {
      ret := [Var(name, value.value)] + list;
      assert ret[1..] == list;
    }
  }

  lemma SetAt(list: seq<Var>, k: nat, value: Option<string>, ret: seq<Var>, m: map<string, string>)
    requires Denotes(list, m) && k < |list|
    requires ret == if value.None? then list[..k] + list[k + 1..] else list[k := list[k].(val := value.value)]
    ensures Denotes(ret, Updated(m, list[k].name, value))
  {
    var name := list[k].name;
    forall other: string
      ensures Find(ret, other) == (if other == name then value else Find(list, other))
    {
      if other == name {
        if value.None? {
          FindMissing(ret, other);
        } else {
          FindAt(ret, k);
        }
      } else {
        SameElsewhere(list, k, value, ret, other);
      }
    }
  }

  lemma SameElsewhere(list: seq<Var>, k: nat, value: Option<string>, ret: seq<Var>, other: string)
    requires UniqueNames(list) && k < |list| && UniqueNames(ret) && other != list[k].name
    requires ret == if value.None? then list[..k] + list[k + 1..] else list[k := list[k].(val := value.value)]
    ensures Find(ret, other) == Find(list, other)
  {
    if i: nat :| i < |list| && list[i].name == other {
      FindAt(list, i);
      FindAt(ret, if value.None? && i > k then i - 1 else i);
    } else {
      FindMissing(list, other);
      FindMissing(ret, other);
    }
  }

  // ---------------------------------------------------------------- the grammar

  predicate IsAlnum(c: char) {
    '0' <= c <= '9' || 'a' <= c <= 'z' || 'A' <= c <= 'Z'
  }

  /** A character that continues a variable name: alphanumeric, or an underscore before one. */
  predicate NameAt(s: string, i: nat) {
    i < |s| && (IsAlnum(s[i]) || (s[i] == '_' && i + 1 < |s| && IsAlnum(s[i + 1])))
  }

  /** End of the variable name that begins at i. */
  function NameEnd(s: string, i: nat): (e: nat)
    requires i <= |s|
    ensures i <= e <= |s| && !NameAt(s, e)
    ensures forall j :: i <= j < e ==> NameAt(s, j)
    decreases |s| - i
  {
    if NameAt(s, i) then NameEnd(s, i + 1) else i
  }

  predicate Bracketed(s: string, dollar: nat) {
    dollar + 1 < |s| && s[dollar + 1] == '{'
  }

  function VarStart(s: string, dollar: nat): (r: nat)
    requires dollar < |s|
    ensures dollar < r <= |s|
  {
    if Bracketed(s, dollar) then dollar + 2 else dollar + 1
  }

  function VarEnd(s: string, dollar: nat): (r: nat)
    requires dollar < |s|
    ensures VarStart(s, dollar) <= r <= |s|
  {
    NameEnd(s, VarStart(s, dollar))
  }

  /** A complete reference to a variable that has a value. */
  function Reference(s: string, dollar: nat): (r: Option<string>)
    requires dollar < |s|
    ensures r.Some? && Bracketed(s, dollar) ==> VarEnd(s, dollar) < |s|
  {
    var (start, end) := (VarStart(s, dollar), VarEnd(s, dollar));
    if end > start && (!Bracketed(s, dollar) || (end < |s| && s[end] == '}')) then Some(s[start..end]) else None
  }

  /** The substitution of what follows position i: ordinary characters are copied; after '$', with or
      without '{', the longest name is read; a known name (closed by '}' if bracketed) is replaced, and
      anything else is copied as it stands, up to the end of the name. */
  function Expand(s: string, i: nat, m: map<string, string>): string
    requires i <= |s|
    decreases |s| - i
  {
    if i == |s| then ""
    else if s[i] != '$' then [s[i]] + Expand(s, i + 1, m)
    else
      var name := Reference(s, i);
      if name.Some? && name.value in m
      then m[name.value] + Expand(s, if Bracketed(s, i) then VarEnd(s, i) + 1 else VarEnd(s, i), m)
      else s[i..VarEnd(s, i)] + Expand(s, VarEnd(s, i), m)
  }

  /** lr_url_substitute: p is where the text not yet copied begins, cur where the scanner is. */
  method Substitute(url: string, list: seq<Var>, ghost m: map<string, string>) returns (res: string)
    requires Denotes(list, m)
    ensures res == Expand(url, 0, m)
  {
    if |list| == 0 {
      EmptyMapCopies(url, 0, m, list);
      return url;
    }
    res := "";
    var cur, p := 0, 0;
    assert "" + url[0..0] == "";
    while cur < |url|
      invariant 0 <= p <= cur <= |url|
      invariant (res + url[p..cur]) + Expand(url, cur, m) == Expand(url, 0, m)
      decreases |url| - cur
    {
      if url[cur] == '$' {
        FlushKeeps(res, url, p, cur);
        if cur > p {
          res := res + url[p..cur];
          p := cur;
        }
        var next, value := ReadVariable(url, cur, list);
        OneRead(res, url, cur, list, m);
        cur := next;
        if value.Some? {
          p := cur;
          res := res + value.value;
          FlushKeeps(res, url, p, cur);
        }
      } else {
        OneCopied(res, url, p, cur, m);
        cur := cur + 1;
      }
    }
    assert url[p..cur] == url[p..] && Expand(url, cur, m) == "";
    if p < |url| {
      res := res + url[p..];
    }
  }

  lemma OneRead(res: string, url: string, cur: nat, list: seq<Var>, m: map<string, string>)
    requires Denotes(list, m) && cur < |url| && url[cur] == '$'
    ensures var (next, value) := Read(url, cur, list);
            && cur < next <= |url|
            && res + Expand(url, cur, m)
               == (res + (if value.Some? then value.value else url[cur..next])) + Expand(url, next, m)
  {
    var (next, value) := Read(url, cur, list);
    ReadIsReference(url, cur, list, m);
    ConcatIsAssociative(res, if value.Some? then value.value else url[cur..next], Expand(url, next, m));
  }

  lemma FlushKeeps(res: string, url: string, p: nat, cur: nat)
    requires p <= cur <= |url|
    ensures (res + url[p..cur]) + url[cur..cur] == res + url[p..cur]
    ensures p == cur ==> res + url[p..cur] == res
  {
  }

  lemma OneCopied(res: string, url: string, p: nat, cur: nat, m: map<string, string>)
    requires p <= cur < |url| && url[cur] != '$'
    ensures (res + url[p..cur]) + Expand(url, cur, m) == (res + url[p..cur + 1]) + Expand(url, cur + 1, m)
  {
    assert url[p..cur + 1] == url[p..cur] + [url[cur]];
    ConcatIsAssociative(res, url[p..cur], [url[cur]]);
    ConcatIsAssociative(res + url[p..cur], [url[cur]], Expand(url, cur + 1, m));
  }

  /** The value ReadVariable finds and the position it stops at. */
  function Read(url: string, dollar: nat, list: seq<Var>): (nat, Option<string>)
    requires dollar < |url|
  {
    var name := Reference(url, dollar);
    var value := if name.Some? then Find(list, name.value) else None;
    (if value.Some? && Bracketed(url, dollar) then VarEnd(url, dollar) + 1 else VarEnd(url, dollar), value)
  }

  lemma ReadIsReference(url: string, dollar: nat, list: seq<Var>, m: map<string, string>)
    requires Denotes(list, m) && dollar < |url| && url[dollar] == '$'
    ensures var (next, value) := Read(url, dollar, list);
            && dollar < next <= |url|
            && Expand(url, dollar, m)
               == (if value.Some? then value.value else url[dollar..next]) + Expand(url, next, m)
  {
  }

  /** What follows a '$': the position after it, and the value if it is a known variable. */
  method ReadVariable(url: string, dollar: nat, list: seq<Var>) returns (cur: nat, value: Option<string>)
    requires dollar < |url| && url[dollar] == '$'
    ensures (cur, value) == Read(url, dollar, list)
  {
    cur := dollar + 1;
    var bracket := cur < |url| && url[cur] == '{';
    if bracket {
      cur := cur + 1;
    }
    var varname := cur;
    while cur < |url| && (IsAlnum(url[cur]) || (url[cur] == '_' && cur + 1 < |url| && IsAlnum(url[cur + 1])))
      invariant varname <= cur <= |url| && NameEnd(url, cur) == NameEnd(url, varname)
    {
      cur := cur + 1;
    }
    value := None;
    if cur != varname && (!bracket || (cur < |url| && url[cur] == '}')) {
      value := LookUp(list, url[varname..cur]);
      if value.Some? && bracket {
        cur := cur + 1;
      }
    }
  }

  /** The inner loop over the list compares length and characters. */
  method LookUp(list: seq<Var>, name: string) returns (r: Option<string>)
    ensures r == Find(list, name)
  {
    var k := 0;
    while k < |list|
      invariant 0 <= k <= |list| && Find(list[k..], name) == Find(list, name)
    {
      if |list[k].name| == |name| && list[k].name == name {
        return Some(list[k].val);
      }
      k := k + 1;
    }
    r := None;
  }

  lemma {:induction false} EmptyMapCopies(s: string, i: nat, m: map<string, string>, list: seq<Var>)
    requires i <= |s| && Denotes(list, m) && list == []
    ensures Expand(s, i, m) == s[i..]
    decreases |s| - i
  {
    if i < |s| {
      if s[i] != '$' {
        EmptyMapCopies(s, i + 1, m, list);
      } else {
        var end := VarEnd(s, i);
        assert Find(list, s[VarStart(s, i)..end]).None?;
        EmptyMapCopies(s, end, m, list);
        assert s[i..end] + s[end..] == s[i..];
      }
    }
  }

  // ---------------------------------------------------------------- what the result depends on

  /** The map that a sequence of lr_urlvars_set calls denotes. */
  function AfterSets(sets: seq<(string, Option<string>)>): map<string, string> {
    if sets == [] then map[]
    else Updated(AfterSets(sets[..|sets| - 1]), sets[|sets| - 1].0, sets[|sets| - 1].1)
  }

  /** The list built by any sequence of calls denotes that map, so the substitution depends on the map
      alone: not on the order of the calls or on values that were replaced. */
  method BuildAndSubstitute(sets: seq<(string, Option<string>)>, url: string) returns (list: seq<Var>, res: string)
    ensures Denotes(list, AfterSets(sets)) && res == Expand(url, 0, AfterSets(sets))
  {
    list := [];
    var k := 0;
    while k < |sets|
      invariant 0 <= k <= |sets| && Denotes(list, AfterSets(sets[..k]))
    {
      assert sets[..k + 1][..k] == sets[..k];
      list := UrlvarsSet(list, sets[k].0, sets[k].1, AfterSets(sets[..k]));
      k := k + 1;
    }
    assert sets[..k] == sets;
    res := Substitute(url, list, AfterSets(sets));
  }

  predicate Agree(a: map<string, string>, b: map<string, string>, name: string) {
    (name in a <==> name in b) && (name in a ==> a[name] == b[name])
  }

  predicate RefersAt(s: string, dollar: nat, name: string) {
    dollar < |s| && s[dollar] == '$' && Reference(s, dollar) == Some(name)
  }

  ghost predicate Refers(s: string, name: string) {
    exists dollar: nat :: RefersAt(s, dollar, name)
  }

  /** What happens at a '$' depends only on the value of the name it refers to. */
  lemma AgreeAt(s: string, i: nat, a: map<string, string>, b: map<string, string>)
    requires i < |s| && s[i] == '$' && forall name: string :: Refers(s, name) ==> Agree(a, b, name)
    ensures Reference(s, i).Some? ==> Agree(a, b, Reference(s, i).value)
  {
    if Reference(s, i).Some? {
      assert RefersAt(s, i, Reference(s, i).value);
    }
  }

  /** Names the URL does not refer to do not matter. */
  lemma {:induction false} OnlyReferredNamesMatter(s: string, i: nat, a: map<string, string>, b: map<string, string>)
    requires i <= |s| && forall name: string :: Refers(s, name) ==> Agree(a, b, name)
    ensures Expand(s, i, a) == Expand(s, i, b)
    decreases |s| - i
  {
    if i < |s| {
      if s[i] != '$' {
        OnlyReferredNamesMatter(s, i + 1, a, b);
      } else {
        AgreeAt(s, i, a, b);
        var known := Reference(s, i).Some? && Reference(s, i).value in a;
        OnlyReferredNamesMatter(s, if known && Bracketed(s, i) then VarEnd(s, i) + 1 else VarEnd(s, i), a, b);
      }
    }
  }

  /** A URL without '$' is left alone. */
  lemma {:induction false} NothingToExpand(s: string, i: nat, m: map<string, string>)
    requires i <= |s| && '$' !in s[i..]
    ensures Expand(s, i, m) == s[i..]
    decreases |s| - i
  {
    if i < |s| {
      assert s[i..][0] == s[i] && s[i..][1..] == s[i + 1..];
      NothingToExpand(s, i + 1, m);
    }
  }

  // ---------------------------------------------------------------- the documented names

  predicate IsNameChar(c: char) {
    IsAlnum(c) || c == '_'
  }

  /** End of the variable name at i by the documentation: any alphanumeric characters and underscores. */
  function DocumentedEnd(s: string, i: nat): (e: nat)
    requires i <= |s|
    ensures i <= e <= |s| && (e < |s| ==> !IsNameChar(s[e]))
    ensures forall j :: i <= j < e ==> IsNameChar(s[j])
    decreases |s| - i
  {
    if i < |s| && IsNameChar(s[i]) then DocumentedEnd(s, i + 1) else i
  }

  function DocumentedReference(s: string, dollar: nat): Option<string>
    requires dollar < |s|
  {
    var (start, end) := (VarStart(s, dollar), DocumentedEnd(s, VarStart(s, dollar)));
    if end > start && (!Bracketed(s, dollar) || (end < |s| && s[end] == '}')) then Some(s[start..end]) else None
  }

  /** What the documentation puts for the URL at position i, and where it goes on. */
  function DocumentedPiece(s: string, i: nat, m: map<string, string>): (r: (string, nat))
    requires i < |s|
    ensures i < r.1 <= |s|
  {
    if s[i] != '$' then ([s[i]], i + 1)
    else
      var name := DocumentedReference(s, i);
      var end := DocumentedEnd(s, VarStart(s, i));
      if name.Some? && name.value in m then (m[name.value], if Bracketed(s, i) then end + 1 else end)
      else (s[i..end], end)
  }

  /** The substitution that url_substitution.h documents. */
  function DocumentedExpand(s: string, i: nat, m: map<string, string>): string
    requires i <= |s|
    decreases |s| - i
  {
    if i == |s| then ""
    else
      var (piece, next) := DocumentedPiece(s, i, m);
      piece + DocumentedExpand(s, next, m)
  }

  /** The names the code can read: every underscore stands before an alphanumeric character. */
  predicate Readable(name: string) {
    forall k :: 0 <= k < |name| && name[k] == '_' ==> k + 1 < |name| && IsAlnum(name[k + 1])
  }

  ghost predicate DollarAt(s: string, i: nat) {
    i < |s| && s[i] == '$'
  }

  ghost predicate ReadableAt(s: string, i: nat) {
    DollarAt(s, i) && DocumentedReference(s, i).Some? ==> Readable(DocumentedReference(s, i).value)
  }

  /** Every reference the documentation sees in the URL has a name the code can read. */
  ghost predicate AllReadable(s: string) {
    forall i: nat :: ReadableAt(s, i)
  }

  ghost predicate AgreesAt(s: string, i: nat) {
    DollarAt(s, i) ==> Reference(s, i) == DocumentedReference(s, i)
  }

  /** At every '$' the code reads what is documented. */
  ghost predicate Agrees(s: string) {
    forall i: nat :: AgreesAt(s, i)
  }

  lemma ReferenceIsReadable(s: string, i: nat)
    requires i < |s| && Reference(s, i).Some?
    ensures Readable(Reference(s, i).value)
  {
    var (start, end) := (VarStart(s, i), VarEnd(s, i));
    var name := s[start..end];
    forall k | 0 <= k < |name| && name[k] == '_'
      ensures k + 1 < |name| && IsAlnum(name[k + 1])
    {
      assert NameAt(s, start + k);
      assert NameAt(s, start + k + 1);
    }
  }

  lemma {:induction false} CodeStopsEarlier(s: string, i: nat)
    requires i <= |s|
    ensures NameEnd(s, i) <= DocumentedEnd(s, i)
    decreases |s| - i
  {
    if NameAt(s, i) {
      CodeStopsEarlier(s, i + 1);
    }
  }

  /** At one '$' the code reads what is documented exactly when the documented name is readable. */
  lemma ReferencesAgree(s: string, i: nat)
    requires i < |s|
    ensures Reference(s, i) == DocumentedReference(s, i)
            <==> (DocumentedReference(s, i).Some? ==> Readable(DocumentedReference(s, i).value))
    ensures Reference(s, i).Some? ==> DocumentedReference(s, i).Some?
  {
    var start := VarStart(s, i);
    var (code, documented) := (VarEnd(s, i), DocumentedEnd(s, start));
    CodeStopsEarlier(s, start);
    if Reference(s, i).Some? {
      ReferenceIsReadable(s, i);
    }
    if code < documented {
      assert s[code] == '_' && !NameAt(s, code);
      if DocumentedReference(s, i).Some? {
        var name := s[start..documented];
        assert name[code - start] == '_';
        assert code + 1 < documented ==> name[code - start + 1] == s[code + 1];
      }
    }
  }

  ghost predicate UnknownAt(s: string, i: nat, m: map<string, string>) {
    i < |s| && Reference(s, i).Some? ==> Reference(s, i).value !in m
  }

  lemma {:induction false} TextIsCopied(s: string, i: nat, j: nat, m: map<string, string>)
    requires i <= j <= |s| && forall k :: i <= k < j ==> s[k] != '$'
    ensures Expand(s, i, m) == s[i..j] + Expand(s, j, m)
    decreases j - i
  {
    if i < j {
      TextIsCopied(s, i + 1, j, m);
      assert s[i..j] == [s[i]] + s[i + 1..j];
      ConcatIsAssociative([s[i]], s[i + 1..j], Expand(s, j, m));
    }
  }

  /** A reference that is not replaced is copied, by the code up to where the documented name ends. */
  lemma UnknownIsCopied(s: string, i: nat, m: map<string, string>)
    requires DollarAt(s, i) && UnknownAt(s, i, m)
    ensures var end := DocumentedEnd(s, VarStart(s, i)); Expand(s, i, m) == s[i..end] + Expand(s, end, m)
  {
    var (code, documented) := (VarEnd(s, i), DocumentedEnd(s, VarStart(s, i)));
    CodeStopsEarlier(s, VarStart(s, i));
    TextIsCopied(s, code, documented, m);
    assert s[i..documented] == s[i..code] + s[code..documented];
    ConcatIsAssociative(s[i..code], s[code..documented], Expand(s, documented, m));
  }

  lemma SameEnd(s: string, i: nat)
    requires i < |s| && Reference(s, i).Some? && Reference(s, i) == DocumentedReference(s, i)
    ensures VarEnd(s, i) == DocumentedEnd(s, VarStart(s, i))
  {
    var start := VarStart(s, i);
    assert |s[start..VarEnd(s, i)]| == |s[start..DocumentedEnd(s, start)]|;
  }

  lemma KnownIsReplaced(s: string, i: nat, m: map<string, string>)
    requires DollarAt(s, i) && Reference(s, i).Some? && Reference(s, i).value in m
    ensures Expand(s, i, m)
            == m[Reference(s, i).value] + Expand(s, if Bracketed(s, i) then VarEnd(s, i) + 1 else VarEnd(s, i), m)
  {
  }

  lemma KnownPiece(s: string, i: nat, m: map<string, string>, piece: string, next: nat)
    requires DollarAt(s, i) && AgreesAt(s, i) && !UnknownAt(s, i, m) && (piece, next) == DocumentedPiece(s, i, m)
    ensures next <= |s| && Expand(s, i, m) == piece + Expand(s, next, m)
  {
    SameEnd(s, i);
    KnownIsReplaced(s, i, m);
  }

  lemma UnknownPiece(s: string, i: nat, m: map<string, string>, piece: string, next: nat)
    requires DollarAt(s, i) && AgreesAt(s, i) && UnknownAt(s, i, m) && (piece, next) == DocumentedPiece(s, i, m)
    ensures next <= |s| && Expand(s, i, m) == piece + Expand(s, next, m)
  {
    UnknownIsCopied(s, i, m);
  }

  lemma PlainPiece(s: string, i: nat, m: map<string, string>)
    requires i < |s| && s[i] != '$'
    ensures DocumentedPiece(s, i, m) == ([s[i]], i + 1) && Expand(s, i, m) == [s[i]] + Expand(s, i + 1, m)
  {
  }

  /** Where the references agree, the code puts the documented piece. */
  lemma SamePiece(s: string, i: nat, m: map<string, string>, piece: string, next: nat)
    requires i < |s| && AgreesAt(s, i) && (piece, next) == DocumentedPiece(s, i, m)
    ensures next <= |s| && Expand(s, i, m) == piece + Expand(s, next, m)
  {
    if !DollarAt(s, i) {
      PlainPiece(s, i, m);
    } else if UnknownAt(s, i, m) {
      UnknownPiece(s, i, m, piece, next);
    } else {
      KnownPiece(s, i, m, piece, next);
    }
  }

  lemma {:induction false} AgreeingReferencesExpandAlike(s: string, i: nat, m: map<string, string>)
    requires i <= |s| && Agrees(s)
    ensures DocumentedExpand(s, i, m) == Expand(s, i, m)
    decreases |s| - i
  {
    if i < |s| {
      assert AgreesAt(s, i);
      var (piece, next) := DocumentedPiece(s, i, m);
      SamePiece(s, i, m, piece, next);
      AgreeingReferencesExpandAlike(s, next, m);
    }
  }

  /** No '$' is passed over. */
  lemma EveryDollarIsReached(s: string, j: nat, i: nat, m: map<string, string>)
    requires j < i && DollarAt(s, i)
    ensures DocumentedPiece(s, j, m).1 <= i
  {
    assert !IsNameChar(s[i]) && (s[j] == '$' ==> i >= VarStart(s, j));
  }

  /** A documented name with a long value makes the documented result long. */
  lemma {:induction false} ValueIsExpanded(s: string, j: nat, i: nat, m: map<string, string>)
    requires j <= i && DollarAt(s, i) && DocumentedReference(s, i).Some? && DocumentedReference(s, i).value in m
    ensures |DocumentedExpand(s, j, m)| >= |m[DocumentedReference(s, i).value]|
    decreases i - j
  {
    if j < i {
      EveryDollarIsReached(s, j, i, m);
      ValueIsExpanded(s, DocumentedPiece(s, j, m).1, i, m);
    }
  }

  lemma {:induction false} UnreadNameCopies(s: string, i: nat, m: map<string, string>)
    requires i <= |s| && forall k: nat :: UnknownAt(s, k, m)
    ensures Expand(s, i, m) == s[i..]
    decreases |s| - i
  {
    if i < |s| {
      if s[i] != '$' {
        UnreadNameCopies(s, i + 1, m);
      } else {
        assert UnknownAt(s, i, m);
        UnreadNameCopies(s, VarEnd(s, i), m);
        assert s[i..VarEnd(s, i)] + s[VarEnd(s, i)..] == s[i..];
      }
    }
  }

  /** A documented name that is not readable is never replaced, whatever else the URL refers to. */
  lemma UnreadableName(s: string, i: nat) returns (m: map<string, string>)
    requires DollarAt(s, i) && DocumentedReference(s, i).Some? && !Readable(DocumentedReference(s, i).value)
    ensures Expand(s, 0, m) == s && DocumentedExpand(s, 0, m) != s
  {
    var name := DocumentedReference(s, i).value;
    m := map[name := s + "x"];
    forall k: nat
      ensures UnknownAt(s, k, m)
    {
      if k < |s| && Reference(s, k).Some? {
        ReferenceIsReadable(s, k);
      }
    }
    UnreadNameCopies(s, 0, m);
    ValueIsExpanded(s, 0, i, m);
  }

  /** The code substitutes what the documentation promises, for all variables, exactly when no name in the
      URL ends with an underscore or has two in a row. */
  lemma DocumentedExactlyWhen(s: string)
    ensures (forall m: map<string, string> :: DocumentedExpand(s, 0, m) == Expand(s, 0, m)) <==> AllReadable(s)
    ensures AllReadable(s) <==> Agrees(s)
  {
    forall i: nat
      ensures AgreesAt(s, i) <==> ReadableAt(s, i)
    {
      if DollarAt(s, i) {
        ReferencesAgree(s, i);
      }
    }
    if AllReadable(s) {
      forall m: map<string, string>
        ensures DocumentedExpand(s, 0, m) == Expand(s, 0, m)
      {
        AgreeingReferencesExpandAlike(s, 0, m);
      }
    } else {
      var i: nat :| !ReadableAt(s, i);
      var m := UnreadableName(s, i);
    }
  }

  /** A trailing underscore is documented, and not read. */
  lemma TrailingUnderscore()
    ensures var m := map["a_" := "x"];
            DocumentedExpand("$a_", 0, m) == "x" && Expand("$a_", 0, m) == "$a_"
  {
    var (s, m) := ("$a_", map["a_" := "x"]);
    assert NameEnd(s, 2) == 2 && s[1..2] == "a";
    assert Reference(s, 0) == Some("a");
    assert Expand(s, 3, m) == "" && Expand(s, 2, m) == "_";
    assert DocumentedEnd(s, 3) == 3 && DocumentedEnd(s, 2) == 3 && s[1..3] == "a_";
    assert DocumentedReference(s, 0) == Some("a_");
    assert DocumentedExpand(s, 3, m) == "";
  }
}
