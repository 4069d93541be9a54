// The type notation of a design: leading '+' signs for arrays, '.' before the name of a struct, and "->" between a
// map's key and its value.
module TypeNotation {
  import opened Common

  // A type with its array depth. The key of a map is the name of a primitive.
  datatype Type = Type(depth: nat, core: Core)
  datatype Core = Prim(name: string) | Ref(name: string) | Map(key: string, value: Type)

  predicate StartsWith(s: string, c: char) {
    |s| > 0 && s[0] == c
  }

  predicate ArrowAt(s: string, i: int) {
    0 <= i < |s| - 1 && s[i] == '-' && s[i + 1] == '>'
  }

  ghost predicate NoArrow(s: string) {
    forall i :: !ArrowAt(s, i)
  }

  // The place of the first "->", or -1.
  function Arrow(s: string): (i: int)
    ensures i == -1 <==> NoArrow(s)
    ensures i != -1 ==> ArrowAt(s, i) && forall j :: ArrowAt(s, j) ==> i <= j
  {
    if |s| < 2 then -1
    else if ArrowAt(s, 0) then 0
    else
      var r := Arrow(s[1..]);
      assert forall j :: j != 0 ==> (ArrowAt(s, j) <==> ArrowAt(s[1..], j - 1));
      assert r != -1 ==> ArrowAt(s, r + 1);
      if r == -1 then -1 else r + 1
  }

  // The number of leading '+' signs.
  function Pluses(s: string): (n: nat)
    ensures n <= |s| && !StartsWith(s[n..], '+') && forall i :: 0 <= i < n ==> s[i] == '+'
  {
    if StartsWith(s, '+') then
      var n := Pluses(s[1..]);
      assert s[1..][n..] == s[n + 1..];
      n + 1
    else 0
  }

  function Parse(s: string): Option<Type>
    decreases |s|
  {
    var n := Pluses(s);
    var v := s[n..];
    var i := Arrow(v);
    if i >= 0 then
      if StartsWith(v[..i], '.') then None
      else
        match Parse(v[i + 2..])
        case None => None
        case Some(t) => Some(Type(n, Map(v[..i], t)))
    else if StartsWith(v, '.') then Some(Type(n, Ref(v[1..])))
    else Some(Type(n, Prim(v)))
  }

  // ParseFieldStringType. Its error is None.
  method ParseFieldStringType(value: string) returns (t: Option<Type>)
    ensures t == Parse(value)
    decreases |value|
  {
    var depth, v := 0, value;
    while StartsWith(v, '+')
      invariant depth <= |value| && v == value[depth..]
      invariant forall i :: 0 <= i < depth ==> value[i] == '+'
      decreases |v|
    {
      depth, v := depth + 1, v[1..];
    }
    PlusesAre(value, depth);
    var i := Arrow(v);
    if i >= 0 {
      var key := v[..i];
      if StartsWith(key, '.') {
        return None;
      }
      var vt := ParseFieldStringType(v[i + 2..]);
      if vt.None? {
        return None;
      }
      t := Some(Type(depth, Map(key, vt.value)));
    } else if StartsWith(v, '.') {
      t := Some(Type(depth, Ref(v[1..])));
    } else {
      t := Some(Type(depth, Prim(v)));
    }
  }

  lemma {:induction false} PlusesAre(s: string, n: nat)
    requires n <= |s| && !StartsWith(s[n..], '+') && forall i :: 0 <= i < n ==> s[i] == '+'
    ensures Pluses(s) == n
  {
    if n > 0 {
      assert s[1..][n - 1..] == s[n..];
      PlusesAre(s[1..], n - 1);
    }
  }

  // ---- Printing ----------------------------------------------------------------------------------------------

  function Repeat(c: char, n: nat): (s: string)
    ensures |s| == n && forall i :: 0 <= i < n ==> s[i] == c
  {
    if n == 0 then "" else [c] + Repeat(c, n - 1)
  }

  function Print(t: Type): string
    decreases t, 1
  {
    Repeat('+', t.depth) + PrintCore(t.core)
  }

  function PrintCore(c: Core): string
    decreases c, 0
  {
    match c
    case Prim(name) => name
    case Ref(name) => "." + name
    case Map(key, value) => key + "->" + Print(value)
  }

  // The names that the notation can carry: without an arrow, and a primitive's without a mark in front.
  ghost predicate WellFormed(t: Type) {
    match t.core
    case Prim(name) => Plain(name)
    case Ref(name) => NoArrow(name)
    case Map(key, value) => Plain(key) && WellFormed(value)
  }

  ghost predicate Plain(name: string) {
    NoArrow(name) && !StartsWith(name, '+') && !StartsWith(name, '.')
  }

  lemma PrintedPluses(n: nat, v: string)
    requires !StartsWith(v, '+')
    ensures Pluses(Repeat('+', n) + v) == n && (Repeat('+', n) + v)[n..] == v
  {
    PlusesAre(Repeat('+', n) + v, n);
  }

  lemma ArrowAfterKey(key: string, rest: string)
    requires NoArrow(key)
    ensures Arrow(key + "->" + rest) == |key|
  {
    var s := key + "->" + rest;
    assert ArrowAt(s, |key|);
    forall j | ArrowAt(s, j)
      ensures |key| <= j
    {
      assert !ArrowAt(key, j);
    }
  }

  // Parsing what a well-formed type prints to gives the type back.
  lemma {:induction false} ParseOfPrint(t: Type)
    requires WellFormed(t)
    ensures Parse(Print(t)) == Some(t)
    decreases t
  {
    var v := PrintCore(t.core);
    match t.core
    case Prim(name) =>
      PrintedPluses(t.depth, v);
    case Ref(name) =>
      PrintedPluses(t.depth, v);
      assert forall i :: ArrowAt(v, i) ==> ArrowAt(name, i - 1);
      assert v[1..] == name;
    case Map(key, value) =>
      ParseOfPrint(value);
      ParseOfMap(t.depth, key, Print(value));
  }

  lemma ParseOfMap(n: nat, key: string, rest: string)
    requires Plain(key)
    ensures Parse(Repeat('+', n) + (key + "->" + rest)) ==
            match Parse(rest) case None => None case Some(t) => Some(Type(n, Map(key, t)))
  {
    var v := key + "->" + rest;
    ArrowAfterKey(key, rest);
    PrintedPluses(n, v);
    hide Arrow, Pluses, Repeat;
    assert v[..|key|] == key && v[|key| + 2..] == rest;
  }

  // Printing what an accepted string parses to gives the string back, and only well-formed types come out.
  lemma {:induction false} PrintOfParse(s: string)
    requires Parse(s).Some?
    ensures WellFormed(Parse(s).value)
    ensures Print(Parse(s).value) == s
    decreases |s|
  {
    var v := s[Pluses(s)..];
    if Arrow(v) >= 0 {
      var rest := v[Arrow(v) + 2..];
      ParsedMap(s);
      PrintOfParse(rest);
      PrintOfMap(s, rest);
    } else {
      PrintOfName(s);
    }
  }

  lemma PrintOfMap(s: string, rest: string)
    requires var v := s[Pluses(s)..]; Arrow(v) >= 0 && rest == v[Arrow(v) + 2..]
    requires Parse(s).Some? && Parse(rest).Some? && WellFormed(Parse(rest).value) && Print(Parse(rest).value) == rest
    ensures WellFormed(Parse(s).value) && Print(Parse(s).value) == s
  {
    hide Parse, Arrow, Pluses, Repeat, Print, WellFormed, Plain, NoArrow;
    var n := Pluses(s);
    var v := s[n..];
    var i, t := Arrow(v), Parse(rest).value;
    ParsedMap(s);
    KeyOf(v, i);
    Stripped(s);
    MapPrints(n, v[..i], t);
  }

  lemma Stripped(s: string)
    ensures s == Repeat('+', Pluses(s)) + s[Pluses(s)..]
  {
    hide Pluses, Repeat;
  }

  lemma ParsedMap(s: string)
    requires Arrow(s[Pluses(s)..]) >= 0 && Parse(s).Some?
    ensures var n := Pluses(s);
            var v := s[n..];
            var i := Arrow(v);
            && Parse(v[i + 2..]).Some? && !StartsWith(v[..i], '.')
            && Parse(s) == Some(Type(n, Map(v[..i], Parse(v[i + 2..]).value)))
  {
    hide Arrow, Pluses;
  }

  lemma MapPrints(n: nat, key: string, t: Type)
    ensures Print(Type(n, Map(key, t))) == Repeat('+', n) + (key + "->" + Print(t))
    ensures WellFormed(Type(n, Map(key, t))) <==> Plain(key) && WellFormed(t)
  {
    hide Repeat;
  }

  lemma PrintOfName(s: string)
    requires Arrow(s[Pluses(s)..]) < 0
    ensures Parse(s).Some? && WellFormed(Parse(s).value) && Print(Parse(s).value) == s
  {
    hide Arrow, Pluses, Repeat;
    Stripped(s);
    NameOf(s[Pluses(s)..]);
    hide NoArrow, Plain;
  }

  lemma NameOf(v: string)
    requires NoArrow(v) && !StartsWith(v, '+')
    ensures if StartsWith(v, '.') then v == "." + v[1..] && NoArrow(v[1..]) else Plain(v)
  {
    if StartsWith(v, '.') {
      assert forall j :: ArrowAt(v[1..], j) ==> ArrowAt(v, j + 1);
    }
  }

  lemma KeyOf(v: string, i: nat)
    requires ArrowAt(v, i) && forall j :: ArrowAt(v, j) ==> i <= j
    requires !StartsWith(v, '+') && !StartsWith(v[..i], '.')
    ensures v == v[..i] + "->" + v[i + 2..] && Plain(v[..i])
  {
    assert forall j :: ArrowAt(v[..i], j) ==> ArrowAt(v, j) && j < i;
  }

  // Two strings that mean the same type are the same string.
  lemma ParseInjective(s: string, s': string)
    requires Parse(s).Some? && Parse(s) == Parse(s')
    ensures s == s'
  {
    PrintOfParse(s);
    PrintOfParse(s');
  }

  // ---- What is refused ---------------------------------------------------------------------------------------

  function Join(parts: seq<string>): string
    requires |parts| > 0
  {
    if |parts| == 1 then parts[0] else parts[0] + "->" + Join(parts[1..])
  }

  // The pieces of s between its arrows.
  ghost predicate IsSplit(s: string, parts: seq<string>) {
    |parts| > 0 && Join(parts) == s && forall i :: 0 <= i < |parts| ==> NoArrow(parts[i])
  }

  // A map key, once its '+' signs are off, starts with a dot.
  predicate DottedKey(part: string) {
    StartsWith(part[Pluses(part)..], '.')
  }

  lemma {:induction false} SplitExists(s: string) returns (parts: seq<string>)
    ensures IsSplit(s, parts)
    decreases |s|
  {
    var i := Arrow(s);
    if i == -1 {
      parts := [s];
    } else {
      var rest := SplitExists(s[i + 2..]);
      parts := [s[..i]] + rest;
      assert parts[1..] == rest && s == s[..i] + "->" + s[i + 2..];
      assert forall j :: ArrowAt(s[..i], j) ==> ArrowAt(s, j) && j < i;
    }
  }

  // The first arrow of s, found behind its '+' signs, ends the first piece.
  lemma FirstPiece(s: string, parts: seq<string>)
    requires IsSplit(s, parts) && |parts| > 1
    ensures var n := Pluses(s);
            n == Pluses(parts[0]) && n <= |parts[0]| && Arrow(s[n..]) == |parts[0]| - n
            && s[n..][..|parts[0]| - n] == parts[0][n..] && s[|parts[0]| + 2..] == Join(parts[1..])
  {
    var p, rest := parts[0], Join(parts[1..]);
    var n := Pluses(p);
    assert s == p + "->" + rest;
    assert s[n..] == p[n..] + "->" + rest;
    PlusesAre(s, n);
    assert forall j :: ArrowAt(p[n..], j) ==> ArrowAt(p, j + n);
    ArrowAfterKey(p[n..], rest);
  }

  // A string is refused exactly when one of its map keys starts with a dot.
  lemma {:induction false} Refused(s: string, parts: seq<string>)
    requires IsSplit(s, parts)
    ensures Parse(s).None? <==> exists i :: 0 <= i < |parts| - 1 && DottedKey(parts[i])
    decreases |parts|
  {
    if |parts| == 1 {
      var n := Pluses(s);
      assert forall j :: ArrowAt(s[n..], j) ==> ArrowAt(s, j + n);
    } else {
      var rest := parts[1..];
      RefusedOne(s, parts);
      assert IsSplit(Join(rest), rest);
      Refused(Join(rest), rest);
      hide Parse, DottedKey, Join, IsSplit;
      assert forall i :: 0 <= i < |rest| - 1 ==> rest[i] == parts[i + 1];
      if i :| 0 <= i < |parts| - 1 && DottedKey(parts[i]) {
        assert i > 0 ==> DottedKey(rest[i - 1]);
      }
    }
  }

  lemma RefusedOne(s: string, parts: seq<string>)
    requires IsSplit(s, parts) && |parts| > 1
    ensures Parse(s).None? <==> DottedKey(parts[0]) || Parse(Join(parts[1..])).None?
  {
    FirstPiece(s, parts);
    hide Join, IsSplit, Arrow, Pluses;
    var n := Pluses(s);
    assert s[n..][|parts[0]| - n + 2..] == Join(parts[1..]);
  }
}
