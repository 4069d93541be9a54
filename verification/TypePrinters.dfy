// The Go and the JavaScript spelling of a type. Each is shown to carry what it is meant to carry by a reader that
// gets it back.
module TypePrinters {
  import opened Common
  import opened TypeNotation

  // The primitives a design may use.
  predicate IsPrimitive(name: string) {
    || name == "any" || name == "bool" || name == "byte" || name == "complex128" || name == "complex64"
    || name == "error" || name == "float32" || name == "float64" || name == "int" || name == "int16"
    || name == "int32" || name == "int64" || name == "int8" || name == "rune" || name == "string"
    || name == "uint" || name == "uint16" || name == "uint32" || name == "uint64" || name == "uint8"
  }

  // Every primitive is listed and every reference is to a struct.
  predicate Known(t: Type, structs: set<string>) {
    match t.core
    case Prim(name) => IsPrimitive(name)
    case Ref(name) => name in structs
    case Map(key, value) => IsPrimitive(key) && Known(value, structs)
  }

  // ---- Go ----------------------------------------------------------------------------------------------------

  predicate Lower(c: char) {
    'a' <= c <= 'z'
  }

  predicate Digit(c: char) {
    '0' <= c <= '9'
  }

  function Upper(c: char): char {
    if Lower(c) then c - 'a' + 'A' else c
  }

  predicate GoChar(c: char) {
    Lower(c) || Digit(c) || 'A' <= c <= 'Z'
  }

  predicate GoChars(s: string) {
    forall i :: 0 <= i < |s| ==> GoChar(s[i])
  }

  // A character that GoName drops.
  predicate Blank(c: char) {
    c == '_' || c == ' '
  }

  // The names a design can give a struct.
  predicate SchemaName(name: string) {
    |name| > 0 && forall i :: 0 <= i < |name| ==> Lower(name[i]) || Digit(name[i]) || name[i] == '_'
  }

  // GoName on ASCII names: underscores become spaces, every letter after something that is neither a letter nor a digit
  // becomes a capital, and spaces are dropped.
  function GoName(name: string): string {
    Capitalised(name, true)
  }

  function Capitalised(s: string, start: bool): string {
    if s == "" then ""
    else if Blank(s[0]) then Capitalised(s[1..], true)
    else [if start then Upper(s[0]) else s[0]] + Capitalised(s[1..], !GoChar(s[0]))
  }

  // An identifier of letters and digits.
  predicate GoIdent(s: string) {
    |s| > 0 && GoChars(s) && !Digit(s[0])
  }

  // A name of letters, digits and blanks, and not of blanks only.
  predicate PlainName(name: string) {
    Letters(name) != "" && GoChars(Letters(name))
  }

  function Brackets(n: nat): string {
    if n == 0 then "" else "[]" + Brackets(n - 1)
  }

  function GoType(t: Type): string
    decreases t, 1
  {
    Brackets(t.depth) + GoCore(t.core)
  }

  function GoCore(c: Core): string
    decreases c, 0
  {
    match c
    case Prim(name) => name
    case Ref(name) => GoName(name)
    case Map(key, value) => "map[" + key + "]" + GoType(value)
  }

  // A type up to the Go names of the structs it refers to.
  function Erase(t: Type): Type {
    Type(t.depth,
         match t.core
         case Prim(name) => Prim(name)
         case Ref(name) => Ref(GoName(name))
         case Map(key, value) => Map(key, Erase(value)))
  }

  // The place of the first c.
  function Place(s: string, c: char): (i: nat)
    ensures i <= |s| && (i < |s| ==> s[i] == c) && forall j :: 0 <= j < i ==> s[j] != c
  {
    if s == "" || s[0] == c then 0 else Place(s[1..], c) + 1
  }

  function ReadGo(s: string): Option<Type>
    decreases |s|
  {
    if "[]" <= s then
      match ReadGo(s[2..])
      case None => None
      case Some(t) => Some(Type(t.depth + 1, t.core))
    else if "map[" <= s then
      var i := Place(s, ']');
      if i == |s| || i < 4 then None
      else
        match ReadGo(s[i + 1..])
        case None => None
        case Some(t) => Some(Type(0, Map(s[4..i], t)))
    else if IsPrimitive(s) then Some(Type(0, Prim(s)))
    else Some(Type(0, Ref(s)))
  }

  lemma PrimitiveChars(name: string)
    requires IsPrimitive(name)
    ensures |name| > 0 && Lower(name[0]) && forall i :: 0 <= i < |name| ==> Lower(name[i]) || Digit(name[i])
  {
  }

  lemma Prefix(p: string, s: string, i: nat)
    requires p <= s && i < |p|
    ensures i < |s| && s[i] == p[i]
  {
  }

  // The first character of a Go name is no small letter.
  lemma {:induction false} GoNameStart(s: string)
    ensures GoName(s) != "" ==> !Lower(GoName(s)[0])
  {
    if s != "" && Blank(s[0]) {
      GoNameStart(s[1..]);
    }
  }

  // What is left of a name without its blanks.
  function Letters(s: string): string {
    if s == "" then "" else (if Blank(s[0]) then "" else [s[0]]) + Letters(s[1..])
  }

  predicate SameLetter(c: char, d: char) {
    c == d || (Lower(d) && c == d - 'a' + 'A')
  }

  // A Go name has the characters of the name but the blanks, and nothing else, up to case.
  lemma {:induction false} GoNameLetters(s: string, start: bool)
    ensures |Capitalised(s, start)| == |Letters(s)|
    ensures forall i :: 0 <= i < |Letters(s)| ==> SameLetter(Capitalised(s, start)[i], Letters(s)[i])
  {
    if s == "" {
    } else if Blank(s[0]) {
      GoNameLetters(s[1..], true);
      assert Letters(s) == Letters(s[1..]);
    } else {
      var next := !GoChar(s[0]);
      GoNameLetters(s[1..], next);
      var g, l := Capitalised(s, start), Letters(s);
      assert SameLetter(g[0], l[0]);
      forall i | 0 < i < |l|
        ensures SameLetter(g[i], l[i])
      {
        assert SameLetter(Capitalised(s[1..], next)[i - 1], Letters(s[1..])[i - 1]);
      }
    }
  }

  // A word is capitalised: its first letter, and nothing else.
  lemma GoNameWord(w: string)
    requires |w| > 0 && GoChars(w)
    ensures GoName(w) == [Upper(w[0])] + w[1..]
  {
    RestOfWord(w[1..]);
  }

  lemma {:induction false} RestOfWord(w: string)
    requires GoChars(w)
    ensures Capitalised(w, false) == w
  {
    if w != "" {
      RestOfWord(w[1..]);
      assert w == [w[0]] + w[1..];
    }
  }

  // Between words, underscores and spaces are dropped, and anything else that is no letter and no digit is kept; either
  // way each side gets the name it has by itself.
  lemma {:induction false} GoNameJoins(x: string, c: char, y: string)
    requires !GoChar(c)
    ensures GoName(x + [c] + y) == GoName(x) + (if Blank(c) then "" else [c]) + GoName(y)
  {
    Joins(x, c, y, true);
  }

  lemma {:induction false} Joins(x: string, c: char, y: string, start: bool)
    requires !GoChar(c)
    ensures Capitalised(x + [c] + y, start) ==
            Capitalised(x, start) + (if Blank(c) then "" else [c]) + Capitalised(y, true)
  {
    var all := x + [c] + y;
    if x == "" {
      assert all[0] == c && all[1..] == y;
    } else {
      assert all[0] == x[0] && all[1..] == x[1..] + [c] + y;
      Joins(x[1..], c, y, if Blank(x[0]) then true else !GoChar(x[0]));
    }
  }

  // The Go name of a plain name is of letters and digits, and of no other name.
  lemma PlainIff(name: string)
    ensures PlainName(name) <==> GoName(name) != "" && GoChars(GoName(name))
  {
    GoNameLetters(name, true);
    var g, l := GoName(name), Letters(name);
    assert forall i :: 0 <= i < |l| ==> SameLetter(g[i], l[i]);
    if GoChars(g) {
      forall i | 0 <= i < |l|
        ensures GoChar(l[i])
      {
        assert GoChar(g[i]);
      }
    }
    if GoChars(l) {
      forall i | 0 <= i < |g|
        ensures GoChar(g[i])
      {
        assert GoChar(l[i]);
      }
    }
  }

  // The Go name is an identifier exactly when the name is of letters, digits and blanks and its first letter or digit
  // is a letter.
  lemma GoIdentIff(name: string)
    ensures GoIdent(GoName(name)) <==> PlainName(name) && !Digit(Letters(name)[0])
  {
    PlainIff(name);
    GoNameLetters(name, true);
    if GoName(name) != "" {
      assert SameLetter(GoName(name)[0], Letters(name)[0]);
    }
  }

  // A struct's Go name is no primitive and starts no array or map.
  lemma GoNameReads(name: string)
    requires PlainName(name)
    ensures ReadGo(GoName(name)) == Some(Type(0, Ref(GoName(name))))
  {
    var g := GoName(name);
    if "map[" <= g {
      Prefix("map[", g, 3);
    }
    PlainIff(name);
    GoNameStart(name);
    if IsPrimitive(g) {
      PrimitiveChars(g);
    }
    assert GoChar(g[0]);
  }

  lemma PrimitiveReads(name: string)
    requires IsPrimitive(name)
    ensures ReadGo(name) == Some(Type(0, Prim(name)))
  {
    PrimitiveChars(name);
    hide IsPrimitive;
    if "map[" <= name {
      Prefix("map[", name, 3);
    }
  }

  lemma MapReads(key: string, rest: string)
    requires IsPrimitive(key)
    ensures var s := "map[" + key + "]" + rest;
            ReadGo(s) == match ReadGo(rest) case None => None case Some(t) => Some(Type(0, Map(key, t)))
  {
    PrimitiveChars(key);
    hide IsPrimitive;
    var s := "map[" + key + "]" + rest;
    var i := Place(s, ']');
    assert s[4 + |key|] == ']';
    assert forall j :: 4 <= j < 4 + |key| ==> s[j] == key[j - 4];
    assert i == 4 + |key|;
    assert s[4..i] == key && s[i + 1..] == rest;
  }

  lemma OneMoreGo(rest: string)
    requires ReadGo(rest).Some?
    ensures ReadGo("[]" + rest) == Some(Type(ReadGo(rest).value.depth + 1, ReadGo(rest).value.core))
  {
    assert ("[]" + rest)[2..] == rest;
  }

  lemma {:induction false} BracketsRead(n: nat, rest: string)
    requires ReadGo(rest).Some?
    ensures ReadGo(Brackets(n) + rest) == Some(Type(ReadGo(rest).value.depth + n, ReadGo(rest).value.core))
  {
    if n == 0 {
      assert Brackets(n) + rest == rest;
    } else {
      assert Brackets(n) + rest == "[]" + (Brackets(n - 1) + rest);
      hide ReadGo, Brackets;
      BracketsRead(n - 1, rest);
      OneMoreGo(Brackets(n - 1) + rest);
    }
  }

  // The Go type of a known type tells the type, up to the Go names of structs.
  lemma {:induction false} GoTypeReads(t: Type, structs: set<string>)
    requires Known(t, structs) && forall n :: n in structs ==> PlainName(n)
    ensures ReadGo(GoType(t)) == Some(Erase(t))
    decreases t
  {
    hide ReadGo, IsPrimitive;
    match t.core {
      case Prim(name) => PrimitiveReads(name);
      case Ref(name) => GoNameReads(name);
      case Map(key, value) =>
        GoTypeReads(value, structs);
        MapReads(key, GoType(value));
    }
    BracketsRead(t.depth, GoCore(t.core));
  }

  // ---- JavaScript --------------------------------------------------------------------------------------------

  function JsPrimitive(name: string): string {
    if name == "any" then "any"
    else if name == "bool" then "boolean"
    else if name == "byte" || name == "uint" || name == "uint16" || name == "uint32" || name == "uint64"
            || name == "uint8" || name == "uintptr" then "uint"
    else if name == "int" || name == "int16" || name == "int32" || name == "int64" || name == "int8" then "int"
    else if name == "float32" || name == "float64" then "float"
    else if name == "error" || name == "rune" || name == "string" then "string"
    else "unknown"
  }

  function JsType(t: Type): string
    decreases t, 1
  {
    JsCore(t.core) + Brackets(t.depth)
  }

  function JsCore(c: Core): string
    decreases c, 0
  {
    match c
    case Prim(name) => JsPrimitive(name)
    case Ref(name) => name
    case Map(key, value) => "Object.<" + JsPrimitive(key) + ", " + JsType(value) + ">"
  }

  // A number keeps its kind, told by its name, and loses its width. There is no JavaScript name for complex numbers.
  lemma JsKinds(name: string)
    requires IsPrimitive(name)
    ensures JsPrimitive(name) == "uint" <==> "uint" <= name || name == "byte"
    ensures JsPrimitive(name) == "int" <==> "int" <= name
    ensures JsPrimitive(name) == "float" <==> "float" <= name
    ensures JsPrimitive(name) == "unknown" <==> "complex" <= name
  {
    StartsLike("uint", name);
    StartsLike("int", name);
    StartsLike("float", name);
    StartsLike("complex", name);
  }

  lemma StartsLike(p: string, s: string)
    requires |p| > 0
    ensures p <= s <==> |p| <= |s| && forall i :: 0 <= i < |p| ==> p[i] == s[i]
    ensures p <= s ==> s[0] == p[0]
  {
  }

  // What a JavaScript type says: its array depth and its name, or its key and its value.
  datatype Js = Js(depth: nat, core: JsForm)
  datatype JsForm = JsName(name: string) | JsObject(key: string, value: Js)

  function ToJs(t: Type): Js {
    Js(t.depth,
       match t.core
       case Prim(name) => JsName(JsPrimitive(name))
       case Ref(name) => JsName(name)
       case Map(key, value) => JsObject(JsPrimitive(key), ToJs(value)))
  }

  predicate EndsInBrackets(s: string) {
    |s| >= 2 && s[|s| - 2] == '[' && s[|s| - 1] == ']'
  }

  function ReadJs(s: string): Option<Js>
    decreases |s|
  {
    if EndsInBrackets(s) then
      match ReadJs(s[..|s| - 2])
      case None => None
      case Some(t) => Some(Js(t.depth + 1, t.core))
    else if "Object.<" <= s && s[|s| - 1] == '>' then
      var i := Place(s, ',');
      if i < 8 || i + 2 > |s| - 1 then None
      else
        match ReadJs(s[i + 2..|s| - 1])
        case None => None
        case Some(t) => Some(Js(0, JsObject(s[8..i], t)))
    else Some(Js(0, JsName(s)))
  }

  lemma JsPrimitiveChars(name: string)
    ensures SchemaName(JsPrimitive(name))
  {
  }

  lemma NameReads(name: string)
    requires SchemaName(name)
    ensures ReadJs(name) == Some(Js(0, JsName(name)))
  {
    if "Object.<" <= name {
      Prefix("Object.<", name, 0);
    }
  }

  lemma ObjectReads(key: string, rest: string)
    requires SchemaName(key)
    ensures var s := "Object.<" + key + ", " + rest + ">";
            ReadJs(s) == match ReadJs(rest) case None => None case Some(t) => Some(Js(0, JsObject(key, t)))
  {
    var s := "Object.<" + key + ", " + rest + ">";
    var n := |s|;
    assert s[n - 1] == '>';
    var i := Place(s, ',');
    assert s[8 + |key|] == ',';
    assert forall j :: 8 <= j < 8 + |key| ==> s[j] == key[j - 8];
    assert i == 8 + |key|;
    assert s[8..i] == key && s[i + 2..n - 1] == rest;
  }

  lemma {:induction false} BracketsEnd(n: nat)
    ensures |Brackets(n)| == 2 * n
    ensures n > 0 ==> Brackets(n) == Brackets(n - 1) + "[]"
  {
    if n > 1 {
      BracketsEnd(n - 1);
      assert Brackets(n) == "[]" + Brackets(n - 2) + "[]";
    }
  }

  lemma {:induction false} OneMoreJs(rest: string)
    requires ReadJs(rest).Some?
    ensures ReadJs(rest + "[]") == Some(Js(ReadJs(rest).value.depth + 1, ReadJs(rest).value.core))
  {
    hide Place;
    var s := rest + "[]";
    assert EndsInBrackets(s) && s[..|s| - 2] == rest;
  }

  lemma {:induction false} BracketsReadJs(rest: string, n: nat)
    requires ReadJs(rest).Some?
    ensures ReadJs(rest + Brackets(n)) == Some(Js(ReadJs(rest).value.depth + n, ReadJs(rest).value.core))
  {
    hide ReadJs;
    if n == 0 {
      assert rest + Brackets(n) == rest;
    } else {
      BracketsEnd(n);
      hide Brackets;
      BracketsReadJs(rest, n - 1);
      OneMoreJs(rest + Brackets(n - 1));
      assert rest + Brackets(n - 1) + "[]" == rest + Brackets(n);
    }
  }

  // The JavaScript type of a known type tells its arrays, its maps and the JavaScript names in it.
  lemma {:induction false} JsTypeReads(t: Type, structs: set<string>)
    requires Known(t, structs) && forall n :: n in structs ==> SchemaName(n)
    ensures ReadJs(JsType(t)) == Some(ToJs(t))
    decreases t
  {
    hide ReadJs, IsPrimitive, JsPrimitive;
    match t.core {
      case Prim(name) =>
        JsPrimitiveChars(name);
        NameReads(JsPrimitive(name));
      case Ref(name) => NameReads(name);
      case Map(key, value) =>
        JsTypeReads(value, structs);
        JsPrimitiveChars(key);
        ObjectReads(JsPrimitive(key), JsType(value));
    }
    BracketsReadJs(JsCore(t.core), t.depth);
  }

  // ---- Both ends -----------------------------------------------------------------------------------------------

  // The array depths of a type and of its map values, outside in.
  function Shape(t: Type): seq<nat> {
    [t.depth] + match t.core case Map(_, value) => Shape(value) case _ => []
  }

  function JsShape(t: Js): seq<nat> {
    [t.depth] + match t.core case JsObject(_, value) => JsShape(value) case _ => []
  }

  lemma {:induction false} SameShape(t: Type)
    ensures Shape(Erase(t)) == Shape(t) == JsShape(ToJs(t))
    decreases t
  {
    if t.core.Map? {
      SameShape(t.core.value);
    }
  }

  // Whatever string a type was written as, its Go type and its JavaScript type nest arrays and maps alike, and its Go
  // type leads back to the string up to the Go names of structs.
  lemma BothEndsAgree(s: string, structs: set<string>)
    requires forall n :: n in structs ==> SchemaName(n) && PlainName(n)
    ensures Parse(s).Some? && Known(Parse(s).value, structs) ==>
              var t := Parse(s).value;
              && ReadGo(GoType(t)) == Some(Erase(t)) && ReadJs(JsType(t)) == Some(ToJs(t))
              && Shape(ReadGo(GoType(t)).value) == JsShape(ReadJs(JsType(t)).value)
              && Print(t) == s
  {
    hide Parse, Known, ReadGo, ReadJs;
    if Parse(s).Some? && Known(Parse(s).value, structs) {
      var t := Parse(s).value;
      GoTypeReads(t, structs);
      JsTypeReads(t, structs);
      SameShape(t);
      PrintOfParse(s);
    }
  }

  // Two types with the same Go type are the same type up to the Go names of structs.
  lemma GoTypeInjective(t: Type, u: Type, structs: set<string>)
    requires Known(t, structs) && Known(u, structs) && GoType(t) == GoType(u)
    requires forall n :: n in structs ==> PlainName(n)
    ensures Erase(t) == Erase(u)
  {
    GoTypeReads(t, structs);
    GoTypeReads(u, structs);
  }
}
