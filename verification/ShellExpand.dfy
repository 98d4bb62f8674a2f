/** The ShellForge variable expander (src/expand.c): one pass over the text into a buffer that doubles. */
module ShellExpand {
  import opened Wrappers

  /** What getenv answers; names without an entry are unset. */
  type Environment = map<string, string>

  /** isalpha and isalnum in the C locale */
  predicate IsAlpha(c: char) { 'a' <= c <= 'z' || 'A' <= c <= 'Z' }

  predicate NameStart(c: char) { IsAlpha(c) || c == '_' }

  predicate NameChar(c: char) { NameStart(c) || '0' <= c <= '9' }

  /** Reading one past the end of a C string gives the NUL. */
  function At(s: string, i: nat): char
    requires i <= |s|
  {
    if i < |s| then s[i] else '\0'
  }

  function Value(env: Environment, name: string): string { if name in env then env[name] else "" }

  /** The first closing brace at or after i; |s| when there is none. */
  function Brace(s: string, i: nat): (j: nat)
    requires i <= |s|
    ensures i <= j <= |s| && (j < |s| ==> s[j] == '}') && forall k :: i <= k < j ==> s[k] != '}'
    decreases |s| - i
  {
    if i < |s| && s[i] != '}' then Brace(s, i + 1) else i
  }

  /** The end of the name that starts at i. */
  function NameEnd(s: string, i: nat): (j: nat)
    requires i <= |s|
    ensures i <= j <= |s| && (j < |s| ==> !NameChar(s[j])) && forall k :: i <= k < j ==> NameChar(s[k])
    decreases |s| - i
  {
    if i < |s| && NameChar(s[i]) then NameEnd(s, i + 1) else i
  }

  // ------------------------------------------------------------------ the specification

  /** What a text is made of. A literal may be a dollar sign. */
  datatype Piece = Literal(c: char) | Braced(name: string) | Bare(name: string)

  function Spell(p: Piece): string {
    match p
    case Literal(c) => [c]
    case Braced(n) => "${" + n + "}"
    case Bare(n) => "$" + n
  }

  function Meaning(p: Piece, env: Environment): string {
    match p
    case Literal(c) => [c]
    case Braced(n) => Value(env, n)
    case Bare(n) => Value(env, n)
  }

  predicate IsBraced(s: string) { |s| > 1 && s[0] == '$' && s[1] == '{' && Brace(s, 2) < |s| }

  predicate IsBare(s: string) { |s| > 1 && s[0] == '$' && NameStart(s[1]) }

  /** The piece a non-empty text starts with. */
  function First(s: string): (p: Piece)
    requires s != ""
    ensures 0 < |Spell(p)| <= |s|
  {
    if IsBraced(s) then Braced(s[2..Brace(s, 2)])
    else if IsBare(s) then Bare(s[1..NameEnd(s, 1)])
    else Literal(s[0])
  }

  /** One-pass substitution: a value is inserted and scanning goes on behind the reference, never inside the value. */
  function Expand(s: string, env: Environment): string
    decreases |s|
  {
    if s == "" then "" else Meaning(First(s), env) + Expand(s[|Spell(First(s))|..], env)
  }

  // ------------------------------------------- what the specification means

  function SpellAll(ps: seq<Piece>): string { if ps == [] then "" else Spell(ps[0]) + SpellAll(ps[1..]) }

  function MeanAll(ps: seq<Piece>, env: Environment): string {
    if ps == [] then "" else Meaning(ps[0], env) + MeanAll(ps[1..], env)
  }

  /** Piece p can stand before the text rest: the rest neither lengthens nor begins a reference. */
  predicate Stands(p: Piece, rest: string) {
    match p
    case Literal(c) => c == '$' && rest != "" ==> !NameStart(rest[0]) && (rest[0] == '{' ==> '}' !in rest)
    case Braced(n) => '}' !in n
    case Bare(n) =>
      && n != "" && NameStart(n[0]) && (forall i :: 0 <= i < |n| ==> NameChar(n[i]))
      && (rest != "" ==> !NameChar(rest[0]))
  }

  predicate Legal(ps: seq<Piece>) { ps == [] || (Stands(ps[0], SpellAll(ps[1..])) && Legal(ps[1..])) }

  lemma {:induction false} BraceAt(s: string, i: nat, j: nat)
    requires i <= j <= |s| && (forall k :: i <= k < j ==> s[k] != '}') && (j < |s| ==> s[j] == '}')
    ensures Brace(s, i) == j
    decreases j - i
  {
    if i < j { BraceAt(s, i + 1, j); }
  }

  lemma {:induction false} NameEndAt(s: string, i: nat, j: nat)
    requires i <= j <= |s| && (forall k :: i <= k < j ==> NameChar(s[k])) && (j < |s| ==> !NameChar(s[j]))
    ensures NameEnd(s, i) == j
    decreases j - i
  {
    if i < j { NameEndAt(s, i + 1, j); }
  }

  /** A name begins with a name character and never with a brace. */
  lemma {:induction false} DollarStarts()
    ensures !NameStart('{') && forall c :: NameStart(c) ==> NameChar(c)
  {
  }

  /** The scan splits off exactly the piece that stands at the front, and no other piece can stand there. */
  lemma {:induction false} FirstStands(s: string)
    requires s != ""
    ensures var p := First(s); Spell(p) + s[|Spell(p)|..] == s && Stands(p, s[|Spell(p)|..])
  {
    hide Brace, NameEnd, NameStart, NameChar;
    DollarStarts();
    if !IsBraced(s) && |s| > 1 && s[1] == '{' {
      forall k | 0 <= k < |s[1..]| && s[0] == '$' ensures s[1..][k] != '}' { assert s[1..][k] == s[k + 1]; }
    }
  }

  lemma {:induction false} FirstOf(p: Piece, rest: string)
    requires Stands(p, rest)
    ensures Spell(p) + rest != "" && First(Spell(p) + rest) == p
  {
    hide Brace, NameEnd, NameStart, NameChar;
    var s := Spell(p) + rest;
    DollarStarts();
    match p {
      case Literal(c) =>
        if c == '$' && rest != "" && rest[0] == '{' {
          assert forall k :: 2 <= k < |s| ==> s[k] == rest[k - 1];
          BraceAt(s, 2, |s|);
        }
      case Braced(n) =>
        assert forall k :: 0 <= k < |n| ==> s[k + 2] == n[k];
        assert s[|n| + 2] == '}';
        BraceAt(s, 2, |n| + 2);
        assert s[2..|n| + 2] == n;
      case Bare(n) =>
        assert forall k :: 0 <= k < |n| ==> s[k + 1] == n[k];
        assert |n| + 1 < |s| ==> s[|n| + 1] == rest[0];
        assert s[1] == n[0];
        NameEndAt(s, 1, |n| + 1);
        assert s[1..|n| + 1] == n;
    }
  }

  /** The pieces of any text. */
  function Scan(s: string): seq<Piece>
    decreases |s|
  {
    if s == "" then [] else [First(s)] + Scan(s[|Spell(First(s))|..])
  }

  /** Every text is spelled by its scan ... */
  lemma {:induction false} ScanSpells(s: string)
    ensures SpellAll(Scan(s)) == s && Legal(Scan(s))
    decreases |s|
  {
    hide First, Stands;
    if s != "" {
      var rest := s[|Spell(First(s))|..];
      ScanSpells(rest);
      FirstStands(s);
      assert Scan(s)[1..] == Scan(rest);
    }
  }

  /** ... and by no other legal sequence of pieces. */
  lemma {:induction false} ScanUnique(ps: seq<Piece>)
    requires Legal(ps)
    ensures Scan(SpellAll(ps)) == ps
    decreases |ps|
  {
    hide First, Stands, Spell;
    if ps != [] {
      var rest := SpellAll(ps[1..]);
      FirstOf(ps[0], rest);
      assert (Spell(ps[0]) + rest)[|Spell(ps[0])|..] == rest;
      ScanUnique(ps[1..]);
      assert ps == [ps[0]] + ps[1..];
    }
  }

  /** Expansion replaces each piece by its meaning and nothing else: values are copied verbatim, dollars included. */
  lemma {:induction false} ExpandSubstitutes(ps: seq<Piece>, env: Environment)
    requires Legal(ps)
    ensures Expand(SpellAll(ps), env) == MeanAll(ps, env)
    decreases |ps|
  {
    hide First, Stands, Meaning;
    if ps != [] {
      var rest := SpellAll(ps[1..]);
      FirstOf(ps[0], rest);
      assert (Spell(ps[0]) + rest)[|Spell(ps[0])|..] == rest;
      ExpandSubstitutes(ps[1..], env);
    }
  }

  /** k is not strictly inside a variable reference of s. */
  predicate Boundary(s: string, k: nat)
    requires k <= |s|
    decreases |s|
  {
    k == 0 || (var n := |Spell(First(s))|; n <= k && Boundary(s[n..], k - n))
  }

  /** The front piece is the same when the text is cut at a later boundary. */
  lemma {:induction false} FirstOfPrefix(s: string, k: nat)
    requires 0 < k <= |s| && |Spell(First(s))| <= k
    ensures First(s[..k]) == First(s)
  {
    var t := s[..k];
    if s[0] == '$' && k > 1 {
      assert t[1] == s[1];
      if s[1] == '{' {
        if Brace(s, 2) < |s| { BraceAt(t, 2, Brace(s, 2)); assert t[2..Brace(s, 2)] == s[2..Brace(s, 2)]; }
        else { BraceAt(t, 2, k); }
      } else if NameStart(s[1]) {
        NameEndAt(t, 1, NameEnd(s, 1));
        assert t[1..NameEnd(s, 1)] == s[1..NameEnd(s, 1)];
      }
    }
  }

  /** Expansion distributes over concatenation at every split outside a variable reference. */
  lemma {:induction false} ExpandDistributes(s: string, k: nat, env: Environment)
    requires k <= |s| && Boundary(s, k)
    ensures Expand(s, env) == Expand(s[..k], env) + Expand(s[k..], env)
    decreases |s|
  {
    hide First, Meaning, Spell;
    if k > 0 {
      var n := |Spell(First(s))|;
      FirstOfPrefix(s, k);
      ExpandDistributes(s[n..], k - n, env);
      assert s[n..][..k - n] == s[..k][n..];
      assert s[n..][k - n..] == s[k..];
    } else {
      assert s[..0] == "" && s[0..] == s;
    }
  }

  /** A text without a dollar sign is left alone. */
  lemma {:induction false} ExpandIdentity(s: string, env: Environment)
    requires '$' !in s
    ensures Expand(s, env) == s
    decreases |s|
  {
    if s != "" {
      assert First(s) == Literal(s[0]);
      ExpandIdentity(s[1..], env);
    }
  }

  /** A piece is replaced by its meaning whatever text it stands before: the value of a reference comes out verbatim,
   *  even when it looks like a reference itself. */
  lemma {:induction false} PieceInContext(p: Piece, rest: string, env: Environment)
    requires Stands(p, rest)
    ensures Expand(Spell(p) + rest, env) == Meaning(p, env) + Expand(rest, env)
  {
    hide First, Expand, Stands, Spell, Meaning;
    FirstOf(p, rest);
    var s := Spell(p) + rest;
    assert s[|Spell(p)|..] == rest;
    ExpandStep(s, env);
  }

  // -------------------------------------- the rules, by the characters; they cover every text

  /** `${name}` is replaced by the value of name, or by nothing when it has none. */
  lemma {:induction false} ExpandBraced(name: string, rest: string, env: Environment)
    requires '}' !in name
    ensures Expand("${" + name + "}" + rest, env) == (if name in env then env[name] else "") + Expand(rest, env)
  {
    hide Expand, First;
    PieceInContext(Braced(name), rest, env);
    assert "${" + name + "}" + rest == Spell(Braced(name)) + rest;
  }

  /** `$name` likewise, for a name of letters, digits and underscores that does not start with a digit, up to the first
   *  character that cannot go on with it. */
  lemma {:induction false} ExpandBare(name: string, rest: string, env: Environment)
    requires name != "" && !('0' <= name[0] <= '9')
    requires forall i :: 0 <= i < |name| ==>
               var c := name[i]; 'a' <= c <= 'z' || 'A' <= c <= 'Z' || '0' <= c <= '9' || c == '_'
    requires rest != "" ==>
               var c := rest[0]; !('a' <= c <= 'z' || 'A' <= c <= 'Z' || '0' <= c <= '9' || c == '_')
    ensures Expand("$" + name + rest, env) == (if name in env then env[name] else "") + Expand(rest, env)
  {
    hide Expand, First;
    PieceInContext(Bare(name), rest, env);
    assert "$" + name + rest == Spell(Bare(name)) + rest;
  }

  /** A dollar sign that starts neither stays. */
  lemma {:induction false} ExpandDollar(rest: string, env: Environment)
    requires rest != "" ==>
               var c := rest[0]; !('a' <= c <= 'z' || 'A' <= c <= 'Z' || c == '_') && (c == '{' ==> '}' !in rest)
    ensures Expand("$" + rest, env) == "$" + Expand(rest, env)
  {
    hide Expand, First;
    PieceInContext(Literal('$'), rest, env);
  }

  /** Every other character stays. */
  lemma {:induction false} ExpandOther(c: char, rest: string, env: Environment)
    requires c != '$'
    ensures Expand([c] + rest, env) == [c] + Expand(rest, env)
  {
    hide Expand, First;
    PieceInContext(Literal(c), rest, env);
  }

  lemma {:induction false} ExpandStep(s: string, env: Environment)
    requires s != ""
    ensures Expand(s, env) == Meaning(First(s), env) + Expand(s[|Spell(First(s))|..], env)
  {
  }

  /** Expanding twice is not expanding once: a value holding a reference comes out unexpanded the first time. */
  lemma {:induction false} NotIdempotent()
    ensures exists s, env :: Expand(Expand(s, env), env) != Expand(s, env)
  {
    hide Expand, First;
    var env := map["A" := "${B}", "B" := "x"];
    EmptyExpands(env);
    PieceInContext(Braced("A"), "", env);
    PieceInContext(Braced("B"), "", env);
    assert Spell(Braced("A")) + "" == "${A}" && Spell(Braced("B")) + "" == "${B}";
    var once, twice := Expand("${A}", env), Expand("${B}", env);
    assert once == "${B}" && |once| == 4 && |twice| == 1;
    assert Expand(Expand("${A}", env), env) != Expand("${A}", env);
  }

  lemma {:induction false} EmptyExpands(env: Environment)
    ensures Expand("", env) == ""
  {
  }

  // ------------------------------------------------------------------ the code

  /** The growing result: length and capacity as updated by append_char. */
  class Buffer {
    var data: array<char>
    var length: nat

    ghost predicate Valid()
      reads this, data
    {
      length < data.Length && data[length] == '\0' && (data.Length == 64 || data.Length <= 2 * length)
    }

    ghost function Contents(): string
      requires Valid()
      reads this, data
    {
      data[..length]
    }

    constructor ()
      ensures Valid() && Contents() == "" && fresh(data) && data.Length == 64
    {
      data := new char[64](_ => '\0');
      length := 0;
    }

    /** realloc: a larger block with the old contents */
    method Grow()
      requires Valid()
      modifies this`data
      ensures fresh(data) && data.Length == 2 * old(data.Length) && data[..length] == old(data[..length])
    {
      var block := data;
      var bigger := new char[2 * block.Length](_ => '\0');
      var i := 0;
      while i < length
        invariant 0 <= i <= length && data == block && bigger[..i] == block[..i]
      {
        bigger[i] := block[i];
        i := i + 1;
      }
      data := bigger;
    }

    method AppendChar(c: char)
      requires Valid()
      modifies this, data
      ensures Valid() && Contents() == old(Contents()) + [c]
      ensures fresh(data) || data == old(data)
    {
      ghost var was := Contents();
      if length + 1 >= data.Length { Grow(); }
      data[length] := c;
      length := length + 1;
      data[length] := '\0';
      assert data[..length] == was + [c];
    }

    method AppendText(text: string)
      requires Valid()
      modifies this, data
      ensures Valid() && Contents() == old(Contents()) + text
      ensures fresh(data) || data == old(data)
    {
      var i := 0;
      assert Contents() == Contents() + text[..0];
      while i < |text|
        invariant 0 <= i <= |text| && Valid() && Contents() == old(Contents()) + text[..i]
        invariant fresh(data) || data == old(data)
      {
        AppendChar(text[i]);
        i := i + 1;
        assert text[..i] == text[..i - 1] + [text[i - 1]];
      }
      assert text[..i] == text;
    }
  }

  /** The end of the braced reference or name the scan at i would find, by the two inner loops. */
  method FindBrace(s: string, start: nat) returns (j: nat)
    requires start <= |s| && CString(s)
    ensures j == Brace(s, start)
  {
    j := start;
    while At(s, j) != '\0' && At(s, j) != '}'
      invariant start <= j <= |s| && Brace(s, j) == Brace(s, start)
      decreases |s| - j
    {
      j := j + 1;
    }
  }

  method FindNameEnd(s: string, start: nat) returns (j: nat)
    requires start <= |s|
    ensures j == NameEnd(s, start)
  {
    j := start;
    while NameChar(At(s, j))
      invariant start <= j <= |s| && NameEnd(s, j) == NameEnd(s, start)
      decreases |s| - j
    {
      j := j + 1;
    }
  }

  lemma {:induction false} Cut(s: string, a: nat, b: nat, c: nat, d: nat)
    requires a <= b <= c <= d <= |s|
    ensures s[a..] == s[a..b] + s[b..c] + s[c..d] + s[d..]
  {
  }

  /** The turns of the scan seen from position i of the whole text. */
  lemma {:induction false} LiteralAt(s: string, i: nat, env: Environment)
    requires i < |s|
    requires s[i] == '$' && i + 1 < |s| ==> !NameStart(s[i + 1]) && (s[i + 1] == '{' ==> Brace(s, i + 2) == |s|)
    ensures Expand(s[i..], env) == [s[i]] + Expand(s[i + 1..], env)
  {
    hide Expand, First;
    var rest := s[i + 1..];
    assert forall k :: 0 <= k < |rest| ==> rest[k] == s[i + 1 + k];
    assert s[i..] == Spell(Literal(s[i])) + rest;
    PieceInContext(Literal(s[i]), rest, env);
  }

  lemma {:induction false} BracedAt(s: string, i: nat, env: Environment)
    requires i + 1 < |s| && s[i] == '$' && s[i + 1] == '{' && Brace(s, i + 2) < |s|
    ensures var j := Brace(s, i + 2); Expand(s[i..], env) == Value(env, s[i + 2..j]) + Expand(s[j + 1..], env)
  {
    hide Expand, First, Brace;
    var j := Brace(s, i + 2);
    Cut(s, i, i + 2, j, j + 1);
    assert s[i..i + 2] == "${" && s[j..j + 1] == "}";
    assert Spell(Braced(s[i + 2..j])) == "${" + s[i + 2..j] + "}";
    PieceInContext(Braced(s[i + 2..j]), s[j + 1..], env);
  }

  lemma {:induction false} BareAt(s: string, i: nat, env: Environment)
    requires i + 1 < |s| && s[i] == '$' && NameStart(s[i + 1])
    ensures var j := NameEnd(s, i + 1); Expand(s[i..], env) == Value(env, s[i + 1..j]) + Expand(s[j..], env)
  {
    hide Expand, First, NameEnd;
    var j := NameEnd(s, i + 1);
    Cut(s, i, i + 1, j, j);
    assert s[i..i + 1] == "$";
    assert Spell(Bare(s[i + 1..j])) == "$" + s[i + 1..j];
    assert s[i..i + 1] + s[i + 1..j] + s[j..j] == "$" + s[i + 1..j];
    PieceInContext(Bare(s[i + 1..j]), s[j..], env);
  }

  /** What the dollar sign at i contributes and where the scan goes on. */
  method DollarAt(input: string, i: nat, env: Environment) returns (text: string, next: nat)
    requires CString(input) && i < |input| && input[i] == '$'
    ensures i < next <= |input| && Expand(input[i..], env) == text + Expand(input[next..], env)
  {
    hide Expand, First, Value;
    if At(input, i + 1) == '{' {
      var j := FindBrace(input, i + 2);
      if At(input, j) == '}' {
        BracedAt(input, i, env);
        return Value(env, input[i + 2..j]), j + 1;
      }
    }
    if NameStart(At(input, i + 1)) {
      var j := FindNameEnd(input, i + 1);
      BareAt(input, i, env);
      return Value(env, input[i + 1..j]), j;
    }
    LiteralAt(input, i, env);
    return "$", i + 1;
  }

  /** expand_string */
  method ExpandString(input: string, env: Environment) returns (result: Buffer)
    requires CString(input)
    ensures fresh(result) && fresh(result.data) && result.Valid() && result.Contents() == Expand(input, env)
  {
    hide Expand, First, Value;
    result := new Buffer();
    var i: nat := 0;
    assert input[0..] == input;
    while i < |input|
      invariant i <= |input| && fresh(result) && fresh(result.data) && result.Valid()
      invariant result.Contents() + Expand(input[i..], env) == Expand(input, env)
      decreases |input| - i
    {
      ghost var was := result.Contents();
      ghost var piece := [input[i]];
      if input[i] != '$' {
        LiteralAt(input, i, env);
        result.AppendChar(input[i]);
        i := i + 1;
      } else {
        var text, next := DollarAt(input, i, env);
        result.AppendText(text);
        piece, i := text, next;
      }
      Associate(was, piece, Expand(input[i..], env));
    }
    assert input[i..] == "";
    EmptyExpands(env);
  }

  lemma {:induction false} Associate(a: string, b: string, c: string)
    ensures (a + b) + c == a + (b + c)
  {
  }
}
