/** The s-expression reader, and the printer it inverts.

    Text still to be read is a suffix of the source.  Symbols are their names;
    interning is a bijection and is modelled elsewhere.
 */
module Sexp {

  datatype Sexp = Int(i: int) | Nil | True | False | Sym(name: string) | Str(chars: string) | Pair(car: Sexp, cdr: Sexp)

  datatype Result = Ok(v: Sexp, rest: string) | Fail

  const MAX_DEPTH: nat := 10000
  const INT_TOK: nat := 31
  const SYM_TOK: nat := 255
  const INT48_MAX: int := 0x7FFF_FFFF_FFFF
  const INT48_MIN: int := -0x8000_0000_0000

  predicate IsSpace(c: char) { c == ' ' || c == '\t' || c == '\n' || c == '\r' }

  predicate IsDelim(c: char) { IsSpace(c) || c == '(' || c == ')' || c == '\'' || c == '"' || c == ';' }

  predicate IsDigit(c: char) { '0' <= c <= '9' }

  predicate Suffix(r: string, s: string) { |r| <= |s| && s[|s| - |r|..] == r }

  lemma SuffixTrans(a: string, b: string, c: string)
    requires Suffix(a, b) && Suffix(b, c)
    ensures Suffix(a, c)
  {
    var d := c[|c| - |b|..];
    assert d[|b| - |a|..] == c[|c| - |a|..];
  }

  // ---- white space and tokens ----

  function SkipLine(s: string): (r: string)
    ensures Suffix(r, s)
  {
    if s == [] || s[0] == '\n' then s else
      var r := SkipLine(s[1..]);
      SuffixTrans(r, s[1..], s);
      r
  }

  /** Skip white space and comments. */
  function SkipWs(s: string): (r: string)
    ensures Suffix(r, s) && (r != [] ==> !IsSpace(r[0]) && r[0] != ';')
    decreases |s|
  {
    if s == [] then s
    else if IsSpace(s[0]) then
      SuffixTrans(SkipWs(s[1..]), s[1..], s);
      SkipWs(s[1..])
    else if s[0] == ';' then
      SuffixTrans(SkipLine(s[1..]), s[1..], s);
      SuffixTrans(SkipWs(SkipLine(s[1..])), SkipLine(s[1..]), s);
      SkipWs(SkipLine(s[1..]))
    else s
  }

  /** Length of the token at the front. */
  function TokLen(s: string): (n: nat)
    ensures n <= |s| && (forall i :: 0 <= i < n ==> !IsDelim(s[i])) && (n < |s| ==> IsDelim(s[n]))
  {
    if s == [] || IsDelim(s[0]) then 0 else 1 + TokLen(s[1..])
  }

  predicate AllDigits(s: string) { s != [] && forall i :: 0 <= i < |s| ==> IsDigit(s[i]) }

  predicate Signed(s: string) { s != [] && (s[0] == '-' || s[0] == '+') }

  /** An optional sign and at least one digit. */
  predicate IntShaped(s: string) { AllDigits(if Signed(s) then s[1..] else s) }

  function DigitValue(c: char): (d: nat)
    requires IsDigit(c)
    ensures d < 10 && c == DigitChar(d)
  {
    c as int - '0' as int
  }

  function DigitChar(d: nat): (c: char)
    requires d < 10
    ensures IsDigit(c)
  {
    ('0' as int + d) as char
  }

  function DigitsValue(s: string): nat
    requires forall i :: 0 <= i < |s| ==> IsDigit(s[i])
  {
    if s == [] then 0 else 10 * DigitsValue(s[..|s| - 1]) + DigitValue(s[|s| - 1])
  }

  function IntValue(s: string): int
    requires IntShaped(s)
  {
    if s[0] == '-' then 0 - DigitsValue(s[1..]) else if s[0] == '+' then DigitsValue(s[1..]) else DigitsValue(s)
  }

  /** A C string ends at the first NUL. */
  function CString(s: string): string {
    if s == [] || s[0] == '\0' then [] else [s[0]] + CString(s[1..])
  }

  /** What a token stands for; in quoted position it is always a name. */
  function AtomOf(tok: string, asName: bool): (r: Result)
    ensures r.Ok? ==> r.rest == []
  {
    if tok == [] then Fail
    else if !asName && IntShaped(tok) then
      if |tok| > INT_TOK || !(INT48_MIN <= IntValue(tok) <= INT48_MAX) then Fail else Ok(Int(IntValue(tok)), [])
    else if !asName && tok == "nil" then Ok(Nil, [])
    else if !asName && tok == "true" then Ok(True, [])
    else if !asName && tok == "false" then Ok(False, [])
    else if |tok| > SYM_TOK then Fail
    else Ok(Sym(CString(tok)), [])
  }

  function ParseAtom(s: string, asName: bool): (r: Result)
    ensures r.Ok? ==> Suffix(r.rest, s) && |r.rest| < |s|
  {
    var n := TokLen(s);
    match AtomOf(s[..n], asName)
    case Ok(v, _) => Ok(v, s[n..])
    case Fail => Fail
  }

  /** The rest of a string literal behind its opening quote. */
  function ParseString(s: string, out: string): (r: Result)
    ensures r.Ok? ==> Suffix(r.rest, s) && |r.rest| < |s|
    decreases |s|
  {
    if s == [] then Fail
    else if s[0] == '"' then Ok(Str(out), s[1..])
    else if s[0] == '\\' then
      if |s| < 2 || !Escapable(s[1]) then Fail else Behind(ParseString(s[2..], out + [Unescaped(s[1])]), s, 2)
    else Behind(ParseString(s[1..], out + [s[0]]), s, 1)
  }

  predicate Escapable(e: char) { e == 'n' || e == 't' || e == 'r' || e == '"' || e == '\\' }

  function Unescaped(e: char): char {
    if e == 'n' then '\n' else if e == 't' then '\t' else if e == 'r' then '\r' else e
  }

  /** A result behind the first k characters of s. */
  function Behind(r: Result, s: string, k: nat): (t: Result)
    requires k <= |s| && (r.Ok? ==> Suffix(r.rest, s[k..]))
    ensures t == r && (r.Ok? ==> Suffix(r.rest, s))
  {
    if r.Ok? then
      SuffixTrans(r.rest, s[k..], s);
      r
    else r
  }

  // ---- lists and forms ----

  /** Reverse a chain of elements onto a tail. */
  function ReverseOnto(acc: Sexp, tail: Sexp): Sexp {
    if acc.Pair? then ReverseOnto(acc.cdr, Pair(acc.car, tail)) else tail
  }

  function ParseForm(s: string, depth: nat): (r: Result)
    ensures r.Ok? ==> Suffix(r.rest, s) && |r.rest| < |s|
    decreases |s|, 0
  {
    if depth > MAX_DEPTH then Fail
    else
      var t := SkipWs(s);
      if t == [] then Fail
      else if t[0] == '(' then Within(Behind(ParseList(t[1..], depth + 1, Nil), t, 1), t, s)
      else if t[0] == '\'' then
        var u := SkipWs(t[1..]);
        if u == [] then Fail
        else
          var r := if u[0] == '(' || u[0] == '"' then ParseForm(u, depth + 1) else ParseAtom(u, true);
          if r.Fail? then Fail
          else
            SuffixTrans(r.rest, u, t[1..]);
            SuffixTrans(r.rest, t[1..], t);
            SuffixTrans(r.rest, t, s);
            Ok(Pair(Sym("quote"), Pair(r.v, Nil)), r.rest)
      else if t[0] == '"' then Within(Behind(ParseString(t[1..], []), t, 1), t, s)
      else Within(ParseAtom(t, false), t, s)
  }

  function Within(r: Result, t: string, s: string): (u: Result)
    requires Suffix(t, s) && (r.Ok? ==> Suffix(r.rest, t))
    ensures u == r && (r.Ok? ==> Suffix(r.rest, s))
  {
    if r.Ok? then
      SuffixTrans(r.rest, t, s);
      r
    else r
  }

  /** The elements of a list up to and including its closing parenthesis; `acc`
      is the reversed chain of those already read. */
  function ParseList(s: string, depth: nat, acc: Sexp): (r: Result)
    ensures r.Ok? ==> Suffix(r.rest, s) && |r.rest| < |s|
    decreases |s|, 1
  {
    var t := SkipWs(s);
    if t == [] then Fail
    else if t[0] == ')' then Within(Ok(ReverseOnto(acc, Nil), t[1..]), t, s)
    else if acc.Pair? && t[0] == '.' && |t| > 1 && IsDelim(t[1]) then
      var r := ParseForm(t[1..], depth);
      if r.Fail? then Fail
      else
        var u := SkipWs(r.rest);
        if u == [] || u[0] != ')' then Fail
        else
          SuffixTrans(u[1..], u, r.rest);
          SuffixTrans(u[1..], r.rest, t[1..]);
          SuffixTrans(u[1..], t[1..], t);
          Within(Ok(ReverseOnto(acc, r.v), u[1..]), t, s)
    else
      var r := ParseForm(t, depth);
      if r.Fail? then Fail
      else
        SuffixTrans(r.rest, t, s);
        Within(ParseList(r.rest, depth, Pair(r.v, acc)), r.rest, s)
  }

  /** All forms of a source text. */
  function ParseAll(s: string, acc: Sexp): Result
    decreases |s|
  {
    var t := SkipWs(s);
    if t == [] then Ok(ReverseOnto(acc, Nil), [])
    else
      match ParseForm(t, 0)
      case Fail => Fail
      case Ok(v, rest) => ParseAll(rest, Pair(v, acc))
  }

  // ---- the printer ----

  function Digits(n: nat): (s: string)
    ensures AllDigits(s)
  {
    if n < 10 then [DigitChar(n)] else Digits(n / 10) + [DigitChar(n % 10)]
  }

  function PrintInt(i: int): string { if i < 0 then "-" + Digits(-i) else Digits(i) }

  function Print(v: Sexp): string
    decreases v, 0
  {
    match v
    case Int(i) => PrintInt(i)
    case Nil => "nil"
    case True => "true"
    case False => "false"
    case Sym(name) => name
    case Str(chars) => chars
    case Pair(car, cdr) => "(" + Print(car) + PrintRest(cdr) + ")"
  }

  function PrintRest(v: Sexp): string
    decreases v, 1
  {
    match v
    case Nil => ""
    case Pair(car, cdr) => " " + Print(car) + PrintRest(cdr)
    case _ => " . " + Print(v)
  }

  /** A name that reads back as itself on its own. */
  predicate Token(name: string) {
    && 0 < |name| <= SYM_TOK && (forall i :: 0 <= i < |name| ==> !IsDelim(name[i]) && name[i] != '\0')
    && !IntShaped(name) && name != "nil" && name != "true" && name != "false"
  }

  /** Trees the reader can give back.  Behind the first element of a list a dot is
      not a name. */
  predicate Legible(v: Sexp)
    decreases v, 0
  {
    match v
    case Int(i) => INT48_MIN <= i <= INT48_MAX
    case Sym(name) => Token(name)
    case Str(_) => false
    case Pair(car, cdr) => Legible(car) && LegibleRest(cdr)
    case _ => true
  }

  predicate LegibleRest(v: Sexp)
    decreases v, 1
  {
    if v.Pair? then v.car != Sym(".") && Legible(v.car) && LegibleRest(v.cdr) else Legible(v)
  }

  /** Nesting as the reader counts it: elements are one deeper than their list,
      the links of a list are not. */
  function Depth(v: Sexp): nat
    decreases v, 0
  {
    if v.Pair? then 1 + (if Depth(v.car) > DepthRest(v.cdr) then Depth(v.car) else DepthRest(v.cdr)) else 0
  }

  function DepthRest(v: Sexp): nat
    decreases v, 1
  {
    if v.Pair? then (if Depth(v.car) > DepthRest(v.cdr) then Depth(v.car) else DepthRest(v.cdr)) else 0
  }

  // ---- numbers ----

  lemma {:induction false} DigitsInverse(n: nat)
    ensures DigitsValue(Digits(n)) == n
  {
    if n < 10 {
      assert Digits(n)[..0] == [];
      assert DigitsValue(Digits(n)[..0]) == 0;
    } else {
      DigitsInverse(n / 10);
      assert Digits(n)[..|Digits(n)| - 1] == Digits(n / 10);
    }
  }

  function Pow10(k: nat): nat { if k == 0 then 1 else 10 * Pow10(k - 1) }

  lemma {:induction false} DigitsLength(n: nat, k: nat)
    requires k > 0 && n < Pow10(k)
    ensures |Digits(n)| <= k
    decreases k
  {
    if n >= 10 { DigitsLength(n / 10, k - 1); }
  }

  lemma Int48Digits(n: nat)
    requires n <= 0x8000_0000_0000
    ensures |Digits(n)| <= 15
  {
    assert Pow10(5) == 100000 && Pow10(10) == 10000000000 && Pow10(15) == 1000000000000000;
    DigitsLength(n, 15);
  }

  /** A printed integer is a token that reads back as that integer, exactly if it is
      in range. */
  lemma IntToken(i: int)
    ensures var tok := PrintInt(i);
            && AtomOf(tok, false) == (if INT48_MIN <= i <= INT48_MAX then Ok(Int(i), []) else Fail)
            && tok != [] && forall k :: 0 <= k < |tok| ==> !IsDelim(tok[k]) && tok[k] != '\0'
  {
    var n := if i < 0 then -i else i;
    var tok := PrintInt(i);
    DigitsInverse(n);
    if INT48_MIN <= i <= INT48_MAX { Int48Digits(n); }
    if i < 0 {
      assert tok[1..] == Digits(n);
    } else {
      assert IsDigit(tok[0]);
    }
  }

  // ---- reading back what was printed ----

  /** A token ends here. */
  predicate Ends(k: string) { k == [] || IsDelim(k[0]) }

  lemma {:induction false} TokLenIs(tok: string, k: string)
    requires (forall i :: 0 <= i < |tok| ==> !IsDelim(tok[i])) && Ends(k)
    ensures TokLen(tok + k) == |tok|
  {
    if tok == [] {
      assert tok + k == k;
    } else {
      assert (tok + k)[1..] == tok[1..] + k;
      TokLenIs(tok[1..], k);
    }
  }

  lemma {:induction false} CStringWhole(s: string)
    requires forall i :: 0 <= i < |s| ==> s[i] != '\0'
    ensures CString(s) == s
  {
    if s != [] { CStringWhole(s[1..]); }
  }

  /** A result in front of more text. */
  function Before(r: Result, k: string): Result { if r.Ok? then Ok(r.v, k) else Fail }

  /** A token in front of a delimiter reads as its atom. */
  lemma AtomReads(tok: string, k: string, depth: nat)
    requires tok != [] && (forall i :: 0 <= i < |tok| ==> !IsDelim(tok[i])) && Ends(k) && depth <= MAX_DEPTH
    ensures ParseForm(tok + k, depth) == Before(AtomOf(tok, false), k)
  {
    hide AtomOf;
    var s := tok + k;
    TokLenIs(tok, k);
    assert s[..|tok|] == tok && s[|tok|..] == k && s[0] == tok[0];
    assert SkipWs(s) == s;
  }

  // ---- what a printed tree reads as ----

  /** Every atom prints as one token. */
  predicate Spelled(v: Sexp) {
    match v
    case Sym(name) => name != [] && forall i :: 0 <= i < |name| ==> !IsDelim(name[i]) && name[i] != '\0'
    case Str(_) => false
    case Pair(car, cdr) => Spelled(car) && Spelled(cdr)
    case _ => true
  }

  /** What the text of a tree reads as at some depth. */
  function Reads(v: Sexp, depth: nat): (r: Result)
    ensures r.Ok? ==> r.rest == []
    decreases v, 0
  {
    if depth > MAX_DEPTH then Fail
    else if !v.Pair? then AtomOf(Print(v), false)
    else
      match Reads(v.car, depth + 1)
      case Fail => Fail
      case Ok(h, _) => Joined(h, ReadsRest(v.cdr, depth + 1))
  }

  /** The same for what follows the first element of a list: a name "." reads as
      the dot in front of a tail. */
  function ReadsRest(v: Sexp, depth: nat): (r: Result)
    ensures r.Ok? ==> r.rest == []
    decreases v, 1
  {
    if v.Nil? then Ok(Nil, [])
    else if !v.Pair? then Reads(v, depth)
    else if v.car == Sym(".") then
      if v.cdr.Pair? && v.cdr.cdr.Nil? then Reads(v.cdr.car, depth) else Fail
    else
      match Reads(v.car, depth)
      case Fail => Fail
      case Ok(h, _) => Joined(h, ReadsRest(v.cdr, depth))
  }

  function Joined(h: Sexp, r: Result): Result { if r.Ok? then Ok(Pair(h, r.v), []) else Fail }

  /** A list with its elements so far in front. */
  function Onto(acc: Sexp, r: Result, k: string): Result { if r.Ok? then Ok(ReverseOnto(acc, r.v), k) else Fail }

  lemma AtomSpelled(v: Sexp)
    requires Spelled(v) && !v.Pair?
    ensures var tok := Print(v); tok != [] && forall i :: 0 <= i < |tok| ==> !IsDelim(tok[i])
  {
    if v.Int? { IntToken(v.i); }
  }

  /** How a printed value starts. */
  lemma PrintStart(v: Sexp)
    requires Spelled(v)
    ensures Print(v) != [] && !IsSpace(Print(v)[0]) && Print(v)[0] != ';' && Print(v)[0] != ')'
    ensures v != Sym(".") && Print(v)[0] == '.' ==> |Print(v)| > 1 && !IsDelim(Print(v)[1])
  {
    if !v.Pair? {
      AtomSpelled(v);
      if v.Int? { assert Print(v)[0] == '-' || IsDigit(Print(v)[0]); }
    }
  }

  lemma RestStart(v: Sexp, k: string)
    ensures Ends(PrintRest(v) + ")" + k)
  {
    var s := PrintRest(v) + ")" + k;
    if v.Nil? { assert s[0] == ')'; } else { assert s[0] == ' '; }
  }

  lemma SkipSpace(s: string)
    ensures SkipWs(" " + s) == SkipWs(s)
  {
    assert (" " + s)[1..] == s;
  }

  lemma OpenParen(inner: string, depth: nat)
    requires depth <= MAX_DEPTH
    ensures ParseForm("(" + inner, depth) == ParseList(inner, depth + 1, Nil)
  {
    var s := "(" + inner;
    assert s[0] == '(' && s[1..] == inner && SkipWs(s) == s;
  }

  lemma SpaceInForm(t: string, depth: nat)
    requires SkipWs(t) == t
    ensures ParseForm(" " + t, depth) == ParseForm(t, depth)
  {
    SkipSpace(t);
  }

  lemma SkipNone(s: string)
    requires s != [] && !IsSpace(s[0]) && s[0] != ';'
    ensures SkipWs(s) == s
  {
  }

  /** A dot in front of a delimiter, behind the first element. */
  lemma DotStep(x: string, depth: nat, acc: Sexp)
    requires acc.Pair? && x != [] && IsDelim(x[0])
    ensures var r := ParseForm(x, depth);
            ParseList(" ." + x, depth, acc) == if r.Fail? then Fail else Closed(r.rest, acc, r.v)
  {
    hide ParseForm, ParseList, SkipWs, Closed;
    var t := "." + x;
    assert " ." + x == " " + t && t[0] == '.' && t[1] == x[0] && t[1..] == x;
    SkipNone(t);
    SpaceInList(t, depth, acc);
    ListDot(t, depth, acc);
  }

  lemma ClosedHere(k: string, acc: Sexp, v: Sexp)
    ensures Closed(")" + k, acc, v) == Ok(ReverseOnto(acc, v), k)
  {
    hide ReverseOnto;
    var u := ")" + k;
    assert u[0] == ')' && u[1..] == k;
    SkipNone(u);
  }

  lemma {:induction false} ReadsForm(v: Sexp, k: string, depth: nat)
    requires Spelled(v) && Ends(k)
    ensures ParseForm(Print(v) + k, depth) == Before(Reads(v, depth), k)
    decreases v, 0
  {
    hide ParseForm, ParseList, SkipWs, Print, PrintRest, AtomOf, ReadsRest;
    if depth > MAX_DEPTH {
      TooDeep(Print(v) + k, depth);
    } else if v.Pair? {
      var rest := PrintRest(v.cdr) + ")" + k;
      var t := Print(v.car) + rest;
      PairParts(v, k);
      RestStart(v.cdr, k);
      PrintStart(v.car);
      ReadsForm(v.car, rest, depth + 1);
      ElementStep(t, depth + 1, Nil, Reads(v.car, depth + 1), rest);
      OpenParen(t, depth);
      if Reads(v.car, depth + 1).Ok? {
        var h := Reads(v.car, depth + 1).v;
        ReadsTail(v.cdr, Pair(h, Nil), k, depth + 1);
        assert forall w :: ReverseOnto(Pair(h, Nil), w) == ReverseOnto(Nil, Pair(h, w)) == Pair(h, w);
      }
    } else {
      AtomSpelled(v);
      AtomReads(Print(v), k, depth);
    }
  }

  lemma Regroup(a: string, b: string, k: string)
    ensures "(" + a + b + ")" + k == "(" + (a + (b + ")" + k))
    ensures " " + a + b + ")" + k == " " + (a + (b + ")" + k))
  {
  }

  lemma PairText(v: Sexp)
    requires v.Pair?
    ensures Print(v) == "(" + Print(v.car) + PrintRest(v.cdr) + ")"
    ensures PrintRest(v) == " " + Print(v.car) + PrintRest(v.cdr)
  {
  }

  lemma PairParts(v: Sexp, k: string)
    requires v.Pair?
    ensures Print(v) + k == "(" + (Print(v.car) + (PrintRest(v.cdr) + ")" + k))
    ensures PrintRest(v) + ")" + k == " " + (Print(v.car) + (PrintRest(v.cdr) + ")" + k))
  {
    hide Print, PrintRest;
    PairText(v);
    Regroup(Print(v.car), PrintRest(v.cdr), k);
  }

  /** An element of a list is read, or spoils it. */
  lemma ElementStep(s: string, depth: nat, acc: Sexp, r: Result, rest: string)
    requires s != [] && !IsSpace(s[0]) && s[0] != ';' && s[0] != ')'
    requires acc.Pair? && s[0] == '.' ==> |s| > 1 && !IsDelim(s[1])
    requires ParseForm(s, depth) == Before(r, rest)
    ensures ParseList(s, depth, acc) == if r.Ok? then ParseList(rest, depth, Pair(r.v, acc)) else Fail
  {
    assert SkipWs(s) == s;
  }

  lemma {:induction false} ReadsTail(v: Sexp, acc: Sexp, k: string, depth: nat)
    requires Spelled(v) && acc.Pair?
    ensures ParseList(PrintRest(v) + ")" + k, depth, acc) == Onto(acc, ReadsRest(v, depth), k)
    decreases v, 1
  {
    hide ParseForm, ParseList, SkipWs, Print, PrintRest, Reads;
    if v.Nil? {
      CloseParen(k, depth, acc);
    } else if !v.Pair? {
      DotAtom(v, acc, k, depth);
    } else if v.car == Sym(".") {
      DotElement(v, acc, k, depth);
    } else {
      var rest := PrintRest(v.cdr) + ")" + k;
      var t := Print(v.car) + rest;
      PairParts(v, k);
      PrintStart(v.car);
      assert t[0] == Print(v.car)[0] && (|Print(v.car)| > 1 ==> t[1] == Print(v.car)[1]);
      RestStart(v.cdr, k);
      ReadsForm(v.car, rest, depth);
      SkipNone(t);
      SpaceInList(t, depth, acc);
      ElementStep(t, depth, acc, Reads(v.car, depth), rest);
      if Reads(v.car, depth).Ok? { ReadsTail(v.cdr, Pair(Reads(v.car, depth).v, acc), k, depth); }
    }
  }

  lemma CloseParen(k: string, depth: nat, acc: Sexp)
    ensures ParseList(PrintRest(Nil) + ")" + k, depth, acc) == Ok(ReverseOnto(acc, Nil), k)
  {
    hide ParseForm;
    var s := PrintRest(Nil) + ")" + k;
    assert s == ")" + k && s[0] == ')' && s[1..] == k;
    SkipNone(s);
  }

  lemma SpaceInList(t: string, depth: nat, acc: Sexp)
    requires SkipWs(t) == t
    ensures ParseList(" " + t, depth, acc) == ParseList(t, depth, acc)
  {
    SkipSpace(t);
  }

  /** A tail that is no list. */
  lemma DotAtom(v: Sexp, acc: Sexp, k: string, depth: nat)
    requires Spelled(v) && acc.Pair? && !v.Pair? && !v.Nil?
    ensures ParseList(PrintRest(v) + ")" + k, depth, acc) == Onto(acc, Reads(v, depth), k)
  {
    hide ParseForm, ParseList, SkipWs, AtomOf, Closed, Print;
    var tail := Print(v) + (")" + k);
    var x := " " + tail;
    assert PrintRest(v) + ")" + k == " ." + x;
    AtomSpelled(v);
    PrintStart(v);
    assert tail[0] == Print(v)[0];
    SkipNone(tail);
    SpaceInForm(tail, depth);
    DotStep(x, depth, acc);
    if depth > MAX_DEPTH {
      TooDeep(x, depth);
    } else {
      AtomReads(Print(v), ")" + k, depth);
      if AtomOf(Print(v), false).Ok? { ClosedHere(k, acc, AtomOf(Print(v), false).v); }
    }
  }

  lemma NoForm(k: string, depth: nat)
    ensures ParseForm(")" + k, depth) == Fail
  {
    var s := ")" + k;
    assert s[0] == ')' && SkipWs(s) == s && TokLen(s) == 0;
    assert s[..0] == [];
  }

  /** What follows in a list is not its end. */
  lemma NotClosed(v: Sexp, k: string, acc: Sexp, w: Sexp)
    requires Spelled(v) && !v.Nil?
    ensures Closed(PrintRest(v) + ")" + k, acc, w) == Fail
  {
    hide SkipWs, ReverseOnto, Print;
    if v.Pair? {
      var t := Print(v.car) + (PrintRest(v.cdr) + ")" + k);
      PairParts(v, k);
      PrintStart(v.car);
      SkipNone(t);
      SkipSpace(t);
    } else {
      var t := ". " + Print(v) + ")" + k;
      assert PrintRest(v) + ")" + k == " " + t;
      SkipNone(t);
      SkipSpace(t);
    }
  }

  /** A name "." behind the first element: only one more element makes sense of it. */
  lemma {:induction false} DotElement(v: Sexp, acc: Sexp, k: string, depth: nat)
    requires Spelled(v) && acc.Pair? && v.Pair? && v.car == Sym(".")
    ensures ParseList(PrintRest(v) + ")" + k, depth, acc) == Onto(acc, ReadsRest(v, depth), k)
    decreases v, 0
  {
    hide ParseForm, ParseList, SkipWs, Reads, Closed, Print, PrintRest;
    var c := v.cdr;
    var x := PrintRest(c) + ")" + k;
    DotText(v, k);
    RestStart(c, k);
    DotStep(x, depth, acc);
    if c.Nil? {
      NilText(k);
      NoForm(k, depth);
    } else if c.Pair? {
      var rest := PrintRest(c.cdr) + ")" + k;
      var t := Print(c.car) + rest;
      PairParts(c, k);
      PrintStart(c.car);
      assert t[0] == Print(c.car)[0];
      SkipNone(t);
      SpaceInForm(t, depth);
      RestStart(c.cdr, k);
      ReadsForm(c.car, rest, depth);
      if Reads(c.car, depth).Ok? {
        if c.cdr.Nil? {
          NilText(k);
          ClosedHere(k, acc, Reads(c.car, depth).v);
        } else {
          NotClosed(c.cdr, k, acc, Reads(c.car, depth).v);
        }
      }
    } else {
      SecondDot(c, acc, k, depth);
    }
  }

  lemma DotText(v: Sexp, k: string)
    requires v.Pair? && v.car == Sym(".")
    ensures PrintRest(v) + ")" + k == " ." + (PrintRest(v.cdr) + ")" + k)
  {
    hide PrintRest;
    PairParts(v, k);
    assert Print(v.car) == ".";
    assert " " + ("." + (PrintRest(v.cdr) + ")" + k)) == " ." + (PrintRest(v.cdr) + ")" + k);
  }

  lemma NilText(k: string)
    ensures PrintRest(Nil) + ")" + k == ")" + k
  {
  }

  /** Two dots in a row and then an atom. */
  lemma SecondDot(c: Sexp, acc: Sexp, k: string, depth: nat)
    requires Spelled(c) && !c.Pair? && !c.Nil?
    ensures var r := ParseForm(PrintRest(c) + ")" + k, depth); r.Ok? ==> Closed(r.rest, acc, r.v) == Fail
  {
    hide ParseForm, SkipWs, AtomOf, ReverseOnto, Print;
    var tail := Print(c) + (")" + k);
    var more := " " + tail;
    var t := "." + more;
    assert PrintRest(c) + ")" + k == " " + t;
    SkipNone(t);
    SpaceInForm(t, depth);
    PrintStart(c);
    assert tail[0] == Print(c)[0];
    SkipNone(tail);
    SkipSpace(tail);
    if depth > MAX_DEPTH { TooDeep(t, depth); } else { AtomReads(".", more, depth); }
  }

  lemma TooDeep(s: string, depth: nat)
    requires depth > MAX_DEPTH
    ensures ParseForm(s, depth) == Fail
  {
  }

  // ---- when that is the tree itself ----

  function Nodes(v: Sexp): nat { if v.Pair? then 1 + Nodes(v.car) + Nodes(v.cdr) else 1 }

  lemma {:induction false} ReadsSmall(v: Sexp, depth: nat)
    ensures Reads(v, depth).Ok? ==> Nodes(Reads(v, depth).v) <= Nodes(v)
    decreases v, 0
  {
    hide AtomOf, Print;
    if v.Pair? {
      ReadsSmall(v.car, depth + 1);
      RestSmall(v.cdr, depth + 1);
    } else {
      AtomFlat(Print(v));
    }
  }

  lemma AtomFlat(tok: string)
    ensures AtomOf(tok, false).Ok? ==> !AtomOf(tok, false).v.Pair?
  {
  }

  lemma {:induction false} RestSmall(v: Sexp, depth: nat)
    ensures ReadsRest(v, depth).Ok? ==> Nodes(ReadsRest(v, depth).v) <= Nodes(v)
    decreases v, 1
  {
    hide Reads;
    if v.Pair? {
      ReadsSmall(v.car, depth);
      RestSmall(v.cdr, depth);
      if v.cdr.Pair? { ReadsSmall(v.cdr.car, depth); }
    } else {
      ReadsSmall(v, depth);
    }
  }

  lemma AtomExact(v: Sexp)
    requires Spelled(v) && !v.Pair?
    ensures AtomOf(Print(v), false) == Ok(v, []) <==> Legible(v)
  {
    hide AtomOf, IntShaped;
    match v
    case Int(i) => IntToken(i);
    case Sym(name) => SymExact(name);
    case _ => LiteralsRead();
  }

  lemma SymExact(name: string)
    requires Spelled(Sym(name))
    ensures AtomOf(name, false) == Ok(Sym(name), []) <==> Token(name)
  {
    hide IntShaped, CString;
    CStringWhole(name);
  }

  lemma LiteralsRead()
    ensures AtomOf("nil", false) == Ok(Nil, []) && AtomOf("true", false) == Ok(True, [])
    ensures AtomOf("false", false) == Ok(False, [])
  {
    hide CString;
    assert !IsDigit("nil"[0]) && !IsDigit("true"[0]) && !IsDigit("false"[0]);
  }

  lemma {:induction false} ReadsExact(v: Sexp, depth: nat)
    requires Spelled(v)
    ensures Reads(v, depth) == Ok(v, []) <==> Legible(v) && depth + Depth(v) <= MAX_DEPTH
    decreases v, 0
  {
    hide AtomOf, Print, ReadsRest, LegibleRest, DepthRest;
    if v.Pair? {
      ReadsExact(v.car, depth + 1);
      if depth + 1 <= MAX_DEPTH { RestExact(v.cdr, depth + 1); }
    } else {
      AtomExact(v);
    }
  }

  lemma {:induction false} RestExact(v: Sexp, depth: nat)
    requires Spelled(v) && depth <= MAX_DEPTH
    ensures ReadsRest(v, depth) == Ok(v, []) <==> LegibleRest(v) && depth + DepthRest(v) <= MAX_DEPTH
    decreases v, 1
  {
    hide Reads, Legible, Depth;
    if v.Pair? {
      ReadsExact(v.car, depth);
      RestExact(v.cdr, depth);
      if v.cdr.Pair? { ReadsSmall(v.cdr.car, depth); }
    } else {
      ReadsExact(v, depth);
      AtomDepth(v);
    }
  }

  lemma AtomDepth(v: Sexp)
    requires !v.Pair?
    ensures Depth(v) == 0 && (v.Nil? ==> Legible(v))
  {
  }

  // ---- whole texts ----

  lemma AllStep(t: string, acc: Sexp)
    requires t != [] && !IsSpace(t[0]) && t[0] != ';'
    ensures var r := ParseForm(t, 0); ParseAll(t, acc) == if r.Ok? then ParseAll(r.rest, Pair(r.v, acc)) else Fail
  {
    assert SkipWs(t) == t;
  }

  lemma AllDone(acc: Sexp)
    ensures ParseAll([], acc) == Ok(ReverseOnto(acc, Nil), [])
  {
  }

  /** What the text of any tree without strings and odd names reads as. */
  lemma ReadsAll(v: Sexp)
    requires Spelled(v)
    ensures ParseAll(Print(v), Nil) == if Reads(v, 0).Ok? then Ok(Pair(Reads(v, 0).v, Nil), []) else Fail
  {
    hide ParseForm, ParseAll, Spelled, Print, Reads;
    PrintStart(v);
    assert Print(v) + [] == Print(v);
    ReadsForm(v, [], 0);
    AllStep(Print(v), Nil);
    if Reads(v, 0).Ok? {
      var w := Reads(v, 0).v;
      AllDone(Pair(w, Nil));
      assert ReverseOnto(Pair(w, Nil), Nil) == ReverseOnto(Nil, Pair(w, Nil)) == Pair(w, Nil);
    }
  }

  // ---- names the reader never makes ----

  predicate NulFree(s: string) { forall i :: 0 <= i < |s| ==> s[i] != '\0' }

  /** Names without delimiters and NULs; if `full`, none is empty. */
  predicate Named(v: Sexp, full: bool) {
    match v
    case Sym(name) => (forall i :: 0 <= i < |name| ==> !IsDelim(name[i]) && name[i] != '\0') && (full ==> name != [])
    case Pair(car, cdr) => Named(car, full) && Named(cdr, full)
    case _ => true
  }

  lemma SuffixFree(r: string, s: string)
    requires Suffix(r, s) && NulFree(s)
    ensures NulFree(r)
  {
    forall i | 0 <= i < |r| ensures r[i] != '\0' { assert r[i] == s[|s| - |r| + i]; }
  }

  lemma {:induction false} CStringNamed(s: string)
    requires forall i :: 0 <= i < |s| ==> !IsDelim(s[i])
    ensures Named(Sym(CString(s)), s != [] && NulFree(s))
  {
    if s != [] && s[0] != '\0' { CStringNamed(s[1..]); }
  }

  lemma AtomNamed(s: string, asName: bool, full: bool)
    requires ParseAtom(s, asName).Ok? && (full ==> NulFree(s))
    ensures Named(ParseAtom(s, asName).v, full)
  {
    var tok := s[..TokLen(s)];
    assert forall i :: 0 <= i < |tok| ==> tok[i] == s[i];
    CStringNamed(tok);
  }

  lemma {:induction false} StringNamed(s: string, out: string, full: bool)
    requires ParseString(s, out).Ok?
    ensures Named(ParseString(s, out).v, full)
    decreases |s|
  {
    if s[0] == '"' {
    } else if s[0] == '\\' {
      StringNamed(s[2..], out + [Unescaped(s[1])], full);
    } else {
      StringNamed(s[1..], out + [s[0]], full);
    }
  }

  lemma {:induction false} OntoNamed(acc: Sexp, tail: Sexp, full: bool)
    requires Named(acc, full) && Named(tail, full)
    ensures Named(ReverseOnto(acc, tail), full)
    decreases acc
  {
    if acc.Pair? { OntoNamed(acc.cdr, Pair(acc.car, tail), full); }
  }

  lemma QuoteNamed(v: Sexp, full: bool)
    requires Named(v, full)
    ensures Named(Pair(Sym("quote"), Pair(v, Nil)), full)
  {
    assert Named(Sym("quote"), full) && Named(Pair(v, Nil), full);
  }

  lemma {:induction false} FormNamed(s: string, depth: nat, full: bool)
    requires ParseForm(s, depth).Ok? && (full ==> NulFree(s))
    ensures Named(ParseForm(s, depth).v, full)
    decreases |s|, 0
  {
    hide ParseForm, ParseList, ParseString, ParseAtom, SkipWs;
    var t := SkipWs(s);
    FormStep(s, depth);
    if full { SuffixFree(t, s); }
    if t[0] == '(' {
      ListNamed(t[1..], depth + 1, Nil, full);
    } else if t[0] == '"' {
      StringNamed(t[1..], [], full);
    } else if t[0] == '\'' {
      var u := SkipWs(t[1..]);
      FormQuote(s, depth);
      if full { SuffixFree(u, t[1..]); }
      if u[0] == '(' || u[0] == '"' { FormNamed(u, depth + 1, full); } else { AtomNamed(u, true, full); }
      QuoteNamed(Quoted(u, depth + 1).v, full);
    } else {
      AtomNamed(t, false, full);
    }
  }

  lemma {:induction false} ListNamed(s: string, depth: nat, acc: Sexp, full: bool)
    requires ParseList(s, depth, acc).Ok? && Named(acc, full) && (full ==> NulFree(s))
    ensures Named(ParseList(s, depth, acc).v, full)
    decreases |s|, 1
  {
    hide ParseForm, ParseList, SkipWs;
    var t := SkipWs(s);
    ListStep(s, depth, acc);
    if full { SuffixFree(t, s); }
    if t[0] == ')' {
      OntoNamed(acc, Nil, full);
    } else if AtDot(t, acc) {
      ListDot(s, depth, acc);
      FormNamed(t[1..], depth, full);
      OntoNamed(acc, ParseForm(t[1..], depth).v, full);
    } else {
      FormNamed(t, depth, full);
      FormShort(t, depth);
      var r := ParseForm(t, depth);
      if full { SuffixFree(r.rest, t); }
      ListNamed(r.rest, depth, Pair(r.v, acc), full);
    }
  }

  predicate NoStrings(v: Sexp) { !v.Str? && (v.Pair? ==> NoStrings(v.car) && NoStrings(v.cdr)) }

  lemma {:induction false} PrintFree(v: Sexp)
    requires Named(v, false) && NoStrings(v)
    ensures NulFree(Print(v)) && NulFree(PrintRest(v))
    decreases v
  {
    if v.Pair? {
      PrintFree(v.car);
      PrintFree(v.cdr);
      JoinFree(Print(v.car), PrintRest(v.cdr));
    } else if v.Int? {
      IntToken(v.i);
    }
  }

  lemma JoinFree(a: string, b: string)
    requires NulFree(a) && NulFree(b)
    ensures NulFree("(" + a + b + ")") && NulFree(" " + a + b)
  {
  }

  lemma {:induction false} NamedSpelled(v: Sexp)
    requires Named(v, true) && NoStrings(v)
    ensures Spelled(v)
  {
    if v.Pair? {
      NamedSpelled(v.car);
      NamedSpelled(v.cdr);
    }
  }

  lemma {:induction false} LegibleSpelled(v: Sexp)
    ensures Legible(v) ==> Spelled(v)
    ensures LegibleRest(v) ==> Spelled(v)
    decreases v
  {
    if v.Pair? {
      LegibleSpelled(v.car);
      LegibleSpelled(v.cdr);
    }
  }

  /** The element read first. */
  function Oldest(acc: Sexp): Sexp
    requires acc.Pair?
  {
    if acc.cdr.Pair? then Oldest(acc.cdr) else acc.car
  }

  lemma {:induction false} OldestFirst(acc: Sexp, tail: Sexp)
    requires acc.Pair?
    ensures ReverseOnto(acc, tail).Pair? && ReverseOnto(acc, tail).car == Oldest(acc)
    decreases acc
  {
    if acc.cdr.Pair? { OldestFirst(acc.cdr, Pair(acc.car, tail)); }
  }

  lemma {:induction false} AllFirst(s: string, acc: Sexp)
    requires acc.Pair? && ParseAll(s, acc).Ok?
    ensures ParseAll(s, acc).v.Pair? && ParseAll(s, acc).v.car == Oldest(acc)
    decreases |s|
  {
    hide ParseForm, SkipWs;
    var t := SkipWs(s);
    if t == [] {
      OldestFirst(acc, Nil);
    } else {
      var r := ParseForm(t, 0);
      AllFirst(r.rest, Pair(r.v, acc));
    }
  }

  /** The first form of a text that reads as a list of v is v. */
  lemma FirstForm(s: string, v: Sexp)
    requires ParseAll(s, Nil) == Ok(Pair(v, Nil), [])
    ensures var t := SkipWs(s); t != [] && ParseForm(t, 0).Ok? && ParseForm(t, 0).v == v
  {
    hide ParseForm, SkipWs;
    var t := SkipWs(s);
    if t != [] {
      var r := ParseForm(t, 0);
      AllFirst(r.rest, Pair(r.v, Nil));
    }
  }

  // ---- strings do not come back ----

  /** The strings of a tree, in the order they are printed and read. */
  function Strs(v: Sexp): seq<string> {
    match v
    case Str(chars) => [chars]
    case Pair(car, cdr) => Strs(car) + Strs(cdr)
    case _ => []
  }

  /** A text has room for the literals of strings: one behind the other, each with
      its two quotes. */
  ghost predicate Room(t: string, ss: seq<string>)
    decreases |ss|
  {
    ss == [] || exists o: nat, c: nat :: Literal(t, ss[0], o, c) && Room(t[c + 1..], ss[1..])
  }

  ghost predicate Literal(t: string, s: string, o: nat, c: nat) {
    o + 1 + |s| <= c < |t| && t[o] == '"' && t[c] == '"'
  }

  lemma RoomFirst(t: string, s: string, o: nat, c: nat, more: seq<string>)
    requires Literal(t, s, o, c) && Room(t[c + 1..], more)
    ensures Room(t, [s] + more)
  {
    var ss := [s] + more;
    assert ss[0] == s && ss[1..] == more;
    assert Literal(t, ss[0], o, c) && Room(t[c + 1..], ss[1..]);
  }

  lemma RoomBefore(x: string, t: string, ss: seq<string>)
    requires Room(t, ss)
    ensures Room(x + t, ss)
  {
    if ss != [] {
      var o: nat, c: nat :| Literal(t, ss[0], o, c) && Room(t[c + 1..], ss[1..]);
      var u, n := x + t, |x|;
      assert u[o + n] == t[o] && u[c + n] == t[c] && u[c + n + 1..] == t[c + 1..];
      assert Literal(u, ss[0], o + n, c + n);
    }
  }

  lemma RoomSuffix(r: string, s: string, ss: seq<string>)
    requires Suffix(r, s) && Room(r, ss)
    ensures Room(s, ss)
  {
    assert s == s[..|s| - |r|] + r;
    RoomBefore(s[..|s| - |r|], r, ss);
  }

  // What the reader takes in has room for what it gives out.

  lemma {:induction false} StringTakes(s: string, out: string)
    requires ParseString(s, out).Ok?
    ensures var r := ParseString(s, out);
            && |r.rest| < |s| && r.v.Str? && s[|s| - |r.rest| - 1] == '"'
            && |r.v.chars| <= |out| + (|s| - |r.rest| - 1) && Suffix(r.rest, s)
    decreases |s|
  {
    hide ParseString;
    if s == [] {
      StringEnd(out);
    } else {
      StringStep(s, out);
      if s[0] == '"' {
      } else if s[0] == '\\' {
        StringTakes(s[2..], out + [Unescaped(s[1])]);
        TakesLater(s, 2, ParseString(s, out).rest);
      } else {
        StringTakes(s[1..], out + [s[0]]);
        TakesLater(s, 1, ParseString(s, out).rest);
      }
    }
  }

  lemma TakesLater(s: string, n: nat, rest: string)
    requires n <= |s| && Suffix(rest, s[n..]) && |rest| < |s| - n
    ensures s[|s| - |rest| - 1] == s[n..][|s| - n - |rest| - 1] && Suffix(rest, s)
  {
    SuffixTrans(rest, s[n..], s);
  }

  lemma StringRoom(t: string, more: seq<string>)
    requires t != [] && t[0] == '"' && ParseString(t[1..], []).Ok?
    requires Room(ParseString(t[1..], []).rest, more)
    ensures Room(t, Strs(ParseString(t[1..], []).v) + more)
  {
    hide ParseString, Room;
    StringTakes(t[1..], []);
    var r := ParseString(t[1..], []);
    var c := |t| - |r.rest| - 1;
    assert t[c + 1..] == r.rest && t[c] == t[1..][c - 1];
    RoomFirst(t, r.v.chars, 0, c, more);
  }

  lemma AtomStrs(s: string, asName: bool)
    requires ParseAtom(s, asName).Ok?
    ensures Strs(ParseAtom(s, asName).v) == [] && Suffix(ParseAtom(s, asName).rest, s)
  {
  }

  /** The strings of the elements read so far. */
  function Gathered(acc: Sexp): seq<string> {
    if acc.Pair? then Gathered(acc.cdr) + Strs(acc.car) else []
  }

  lemma OntoStep(acc: Sexp, tail: Sexp)
    requires acc.Pair?
    ensures ReverseOnto(acc, tail) == ReverseOnto(acc.cdr, Pair(acc.car, tail))
    ensures Gathered(acc) == Gathered(acc.cdr) + Strs(acc.car)
    ensures Strs(Pair(acc.car, tail)) == Strs(acc.car) + Strs(tail)
  {
  }

  lemma OntoEnd(acc: Sexp, tail: Sexp)
    requires !acc.Pair?
    ensures ReverseOnto(acc, tail) == tail && Gathered(acc) == []
  {
  }

  lemma Regrouped(a: seq<string>, b: seq<string>, c: seq<string>)
    ensures a + (b + c) == a + b + c
  {
  }

  lemma {:induction false} OntoStrs(acc: Sexp, tail: Sexp)
    ensures Strs(ReverseOnto(acc, tail)) == Gathered(acc) + Strs(tail)
    decreases acc
  {
    hide ReverseOnto, Gathered, Strs;
    if acc.Pair? {
      OntoStep(acc, tail);
      OntoStrs(acc.cdr, Pair(acc.car, tail));
      Regrouped(Gathered(acc.cdr), Strs(acc.car), Strs(tail));
    } else {
      OntoEnd(acc, tail);
      assert [] + Strs(tail) == Strs(tail);
    }
  }

  lemma QuoteStrs(w: Sexp)
    ensures Strs(Pair(Sym("quote"), Pair(w, Nil))) == Strs(w)
  {
    assert Strs(Pair(w, Nil)) == Strs(w) + [] == Strs(w);
    assert Strs(Sym("quote")) == [];
  }

  lemma {:induction false} FormRoom(s: string, depth: nat, more: seq<string>)
    requires ParseForm(s, depth).Ok? && Room(ParseForm(s, depth).rest, more)
    ensures Room(s, Strs(ParseForm(s, depth).v) + more)
    decreases |s|, 0
  {
    hide ParseForm, ParseList, ParseString, ParseAtom, SkipWs, Room;
    var t := SkipWs(s);
    FormStep(s, depth);
    var v := ParseForm(s, depth).v;
    if t[0] == '(' {
      var added := ListRoom(t[1..], depth + 1, Nil, more);
      assert [] + added == added;
      RoomSuffix(t[1..], t, Strs(v) + more);
    } else if t[0] == '"' {
      StringRoom(t, more);
    } else if t[0] == '\'' {
      var u := SkipWs(t[1..]);
      FormQuote(s, depth);
      QuoteRoom(u, depth + 1, more);
      var w := Quoted(u, depth + 1).v;
      QuoteStrs(w);
      RoomSuffix(u, t[1..], Strs(v) + more);
      RoomSuffix(t[1..], t, Strs(v) + more);
    } else {
      AtomStrs(t, false);
      RoomSuffix(ParseAtom(t, false).rest, t, more);
      assert [] + more == more;
    }
    RoomSuffix(t, s, Strs(v) + more);
  }

  lemma {:induction false} QuoteRoom(u: string, depth: nat, more: seq<string>)
    requires u != [] && Quoted(u, depth).Ok? && Room(Quoted(u, depth).rest, more)
    ensures Room(u, Strs(Quoted(u, depth).v) + more)
    decreases |u|, 1
  {
    hide ParseForm, ParseAtom, Room;
    if u[0] == '(' || u[0] == '"' {
      FormRoom(u, depth, more);
    } else {
      AtomStrs(u, true);
      RoomSuffix(ParseAtom(u, true).rest, u, more);
      assert [] + more == more;
    }
  }

  lemma {:induction false} ListRoom(s: string, depth: nat, acc: Sexp, more: seq<string>) returns (added: seq<string>)
    requires ParseList(s, depth, acc).Ok? && Room(ParseList(s, depth, acc).rest, more)
    ensures Strs(ParseList(s, depth, acc).v) == Gathered(acc) + added && Room(s, added + more)
    decreases |s|, 1
  {
    hide ParseForm, ParseList, SkipWs, Room, Closed;
    var t := SkipWs(s);
    ListStep(s, depth, acc);
    if t[0] == ')' {
      OntoStrs(acc, Nil);
      added := [];
      assert [] + more == more;
      RoomSuffix(t[1..], t, more);
    } else if AtDot(t, acc) {
      ListDot(s, depth, acc);
      var r := ParseForm(t[1..], depth);
      ClosedRoom(r.rest, acc, r.v, more);
      FormRoom(t[1..], depth, more);
      OntoStrs(acc, r.v);
      added := Strs(r.v);
      RoomSuffix(t[1..], t, added + more);
    } else {
      var r := ParseForm(t, depth);
      FormShort(t, depth);
      var tail := ListRoom(r.rest, depth, Pair(r.v, acc), more);
      FormRoom(t, depth, tail + more);
      added := Strs(r.v) + tail;
      assert Gathered(Pair(r.v, acc)) + tail == Gathered(acc) + added;
      assert Strs(r.v) + (tail + more) == added + more;
    }
    RoomSuffix(t, s, added + more);
  }

  lemma ClosedRoom(rest: string, acc: Sexp, v: Sexp, more: seq<string>)
    requires Closed(rest, acc, v).Ok? && Room(Closed(rest, acc, v).rest, more)
    ensures Closed(rest, acc, v).v == ReverseOnto(acc, v) && Room(rest, more)
  {
    hide Room, SkipWs, ReverseOnto;
    var u := SkipWs(rest);
    RoomSuffix(u[1..], u, more);
    RoomSuffix(u, rest, more);
  }

  // Printed text has no such room: the quotes of a literal can only lie in strings,
  // and each literal ends behind the place of its own string.

  predicate QuoteFree(x: string) { forall i :: 0 <= i < |x| ==> x[i] != '"' }

  /** Whatever room x and the text behind it have for `ss` and more, the literals of
      `ss` end behind x. */
  ghost predicate Tight(x: string, ss: seq<string>) {
    && (ss == [] ==> QuoteFree(x))
    && forall k, more :: Room(x + k, ss + more) ==> Beyond(k, ss, more)
  }

  ghost predicate Beyond(k: string, ss: seq<string>, more: seq<string>) {
    if ss == [] then Room(k, more)
    else exists c: nat :: EndsAt(k, c) && Room(k[c + 1..], more)
  }

  predicate EndsAt(k: string, c: nat) { c < |k| && k[c] == '"' }

  lemma BeyondRoom(k: string, ss: seq<string>, more: seq<string>)
    requires Beyond(k, ss, more)
    ensures Room(k, more)
  {
    hide Room;
    if ss != [] {
      var c: nat :| EndsAt(k, c) && Room(k[c + 1..], more);
      RoomSuffix(k[c + 1..], k, more);
    }
  }

  lemma FreeTight(x: string)
    requires QuoteFree(x)
    ensures Tight(x, [])
  {
    forall k, more: seq<string> | Room(x + k, [] + more) ensures Room(k, more) {
      assert [] + more == more;
      if more != [] {
        var t := x + k;
        var o: nat, c: nat :| Literal(t, more[0], o, c) && Room(t[c + 1..], more[1..]);
        assert o >= |x| && t[o] == k[o - |x|] && t[c] == k[c - |x|] && t[c + 1..] == k[c - |x| + 1..];
        assert Literal(k, more[0], o - |x|, c - |x|);
      }
    }
  }

  lemma StringTight(s: string)
    ensures Tight(s, [s])
  {
    forall k, more | Room(s + k, [s] + more) ensures Beyond(k, [s], more) {
      var t, ss := s + k, [s] + more;
      assert ss[1..] == more;
      var o: nat, c: nat :| Literal(t, s, o, c) && Room(t[c + 1..], more);
      assert t[c] == k[c - |s|] && t[c + 1..] == k[c - |s| + 1..];
      assert EndsAt(k, c - |s|);
    }
  }

  lemma JoinTight(x: string, ss: seq<string>, y: string, tt: seq<string>)
    requires Tight(x, ss) && Tight(y, tt)
    ensures Tight(x + y, ss + tt)
  {
    hide Room, Beyond;
    forall k, more | Room(x + y + k, ss + tt + more) ensures Beyond(k, ss + tt, more) {
      assert x + y + k == x + (y + k) && ss + tt + more == ss + (tt + more);
      assert Beyond(y + k, ss, tt + more);
      BeyondRoom(y + k, ss, tt + more);
      assert Beyond(k, tt, more);
      BeyondBoth(k, ss, y, tt, more);
    }
    if ss + tt == [] { assert ss == [] && tt == []; }
  }

  lemma BeyondBoth(k: string, ss: seq<string>, y: string, tt: seq<string>, more: seq<string>)
    requires Beyond(y + k, ss, tt + more) && Beyond(k, tt, more) && (tt == [] ==> QuoteFree(y))
    ensures Beyond(k, ss + tt, more)
  {
    hide Room;
    if ss == [] {
      assert ss + tt == tt;
    } else if tt == [] {
      assert ss + tt == ss && tt + more == more;
      var t := y + k;
      var c: nat :| EndsAt(t, c) && Room(t[c + 1..], more);
      assert c >= |y| && t[c] == k[c - |y|] && t[c + 1..] == k[c - |y| + 1..];
      assert EndsAt(k, c - |y|);
    }
  }

  lemma {:induction false} PrintTight(v: Sexp)
    requires Named(v, false)
    ensures Tight(Print(v), Strs(v)) && Tight(PrintRest(v), Strs(v))
    decreases v
  {
    hide Tight, Print, PrintRest, Strs;
    if v.Pair? {
      PrintTight(v.car);
      PrintTight(v.cdr);
      PairText(v);
      PairTight(Print(v.car), Strs(v.car), PrintRest(v.cdr), Strs(v.cdr));
      PairStrs(v);
    } else {
      AtomTight(v);
    }
  }

  lemma PairStrs(v: Sexp)
    requires v.Pair?
    ensures Strs(v) == Strs(v.car) + Strs(v.cdr)
  {
  }

  lemma PairTight(a: string, ss: seq<string>, b: string, tt: seq<string>)
    requires Tight(a, ss) && Tight(b, tt)
    ensures Tight("(" + a + b + ")", ss + tt) && Tight(" " + a + b, ss + tt)
  {
    hide Tight;
    JoinTight(a, ss, b, tt);
    Framed("(", a + b, ")", ss + tt);
    Framed(" ", a + b, "", ss + tt);
    assert "(" + (a + b) + ")" == "(" + a + b + ")" && " " + (a + b) + "" == " " + a + b;
  }

  lemma AtomTight(v: Sexp)
    requires Named(v, false) && !v.Pair?
    ensures Tight(Print(v), Strs(v)) && Tight(PrintRest(v), Strs(v))
  {
    hide Tight, Print;
    if v.Str? {
      StringTight(v.chars);
      assert Print(v) == v.chars by { StringText(v); }
    } else {
      AtomFree(v);
      FreeTight(Print(v));
    }
    Framed(" . ", Print(v), "", Strs(v));
    assert " . " + Print(v) + "" == " . " + Print(v);
    FreeTight("");
  }

  lemma StringText(v: Sexp)
    requires v.Str?
    ensures Print(v) == v.chars
  {
  }

  lemma AtomFree(v: Sexp)
    requires Named(v, false) && !v.Pair? && !v.Str?
    ensures QuoteFree(Print(v))
  {
    if v.Int? { IntToken(v.i); }
  }

  lemma Framed(p: string, x: string, q: string, ss: seq<string>)
    requires QuoteFree(p) && QuoteFree(q) && Tight(x, ss)
    ensures Tight(p + x + q, ss)
  {
    hide Tight;
    FreeTight(p);
    FreeTight(q);
    JoinTight(p, [], x, ss);
    JoinTight(p + x, [] + ss, q, []);
    assert [] + ss + [] == ss;
  }

  /** No tree with a string reads back as itself. */
  lemma StringsLost(v: Sexp)
    requires Strs(v) != []
    ensures ParseAll(Print(v), Nil) != Ok(Pair(v, Nil), [])
  {
    hide ParseForm, ParseAll, Print, SkipWs, Strs, Named, Room, Tight;
    if ParseAll(Print(v), Nil) == Ok(Pair(v, Nil), []) {
      var t := SkipWs(Print(v));
      FirstForm(Print(v), v);
      FormNamed(t, 0, false);
      PrintTight(v);
      assert Room(ParseForm(t, 0).rest, []) by { NoRoomNeeded(ParseForm(t, 0).rest); }
      FormRoom(t, 0, []);
      assert Strs(v) + [] == Strs(v);
      TightFull(Print(v), Strs(v));
      RoomSuffix(t, Print(v), Strs(v));
    }
  }

  /** With nothing behind it there is no room. */
  lemma TightFull(x: string, ss: seq<string>)
    requires Tight(x, ss) && ss != []
    ensures !Room(x, ss)
  {
    hide Room;
    assert x + [] == x && ss + [] == ss;
    assert Room(x + [], ss + []) ==> Beyond([], ss, []);
  }

  lemma NoRoomNeeded(t: string)
    ensures Room(t, [])
  {
  }

  lemma {:induction false} NoStringsNone(v: Sexp)
    ensures NoStrings(v) <==> Strs(v) == []
  {
    if v.Pair? {
      NoStringsNone(v.car);
      NoStringsNone(v.cdr);
    }
  }

  lemma {:induction false} LegibleNone(v: Sexp)
    ensures Legible(v) || LegibleRest(v) ==> NoStrings(v)
    decreases v
  {
    if v.Pair? {
      LegibleNone(v.car);
      LegibleNone(v.cdr);
    }
  }

  /** The reader inverts the printer exactly on the legible trees within the nesting
      cap: whatever tree is printed, reading the text gives the list of that one tree
      if and only if it is one of those. */
  lemma ReadBack(v: Sexp)
    ensures ParseAll(Print(v), Nil) == Ok(Pair(v, Nil), []) <==> Legible(v) && Depth(v) <= MAX_DEPTH
  {
    hide ParseForm, ParseAll, Print, SkipWs, Legible, Reads, Spelled, Depth, Named, NoStrings, NulFree;
    LegibleSpelled(v);
    LegibleNone(v);
    NoStringsNone(v);
    if !NoStrings(v) { StringsLost(v); }
    if ParseAll(Print(v), Nil) == Ok(Pair(v, Nil), []) {
      var t := SkipWs(Print(v));
      FirstForm(Print(v), v);
      FormNamed(t, 0, false);
      PrintFree(v);
      SuffixFree(t, Print(v));
      FormNamed(t, 0, true);
      NamedSpelled(v);
    }
    if Spelled(v) {
      ReadsAll(v);
      ReadsExact(v, 0);
    }
  }

  /** On its own a symbol reads back exactly when its name is a token: not empty,
      within the length cap, free of delimiters, and not shaped like a number or
      a literal. */
  lemma SymbolReadsBack(name: string)
    ensures ParseAll(name, Nil) == Ok(Pair(Sym(name), Nil), []) <==> Token(name)
  {
    hide ParseAll;
    ReadBack(Sym(name));
  }

  // ---- string literals ----

  /** A string as a literal spells it: quotes and backslashes are escaped. */
  function Escaped(s: string): string {
    if s == [] then [] else (if s[0] == '"' || s[0] == '\\' then ['\\', s[0]] else [s[0]]) + Escaped(s[1..])
  }

  /** What the letter behind a backslash stands for. */
  predicate Means(e: char, c: char) {
    match e
    case 'n' => c == '\n'
    case 't' => c == '\t'
    case 'r' => c == '\r'
    case '"' => c == '"'
    case '\\' => c == '\\'
    case _ => false
  }

  /** b is a way to write the string s between quotes: characters as they are, but
      for quotes and backslashes, or escapes. */
  predicate Spells(b: string, s: string)
    decreases |b|
  {
    if b == [] then s == []
    else
      && s != []
      && if b[0] == '\\' then |b| >= 2 && Means(b[1], s[0]) && Spells(b[2..], s[1..])
         else b[0] != '"' && s[0] == b[0] && Spells(b[1..], s[1..])
  }

  lemma MeansUnescaped(e: char, c: char)
    ensures Means(e, c) <==> Escapable(e) && c == Unescaped(e)
  {
  }

  lemma SpellsStep(b: string, s: string)
    requires b != []
    ensures Spells(b, s) <==>
            && s != []
            && if b[0] == '\\' then |b| >= 2 && Means(b[1], s[0]) && Spells(b[2..], s[1..])
               else b[0] != '"' && s[0] == b[0] && Spells(b[1..], s[1..])
  {
    hide Means;
  }

  /** The text of a literal's body up to its closing quote and beyond. */
  function Body(b: string, k: string): string { b + ("\"" + k) }

  lemma BodyStep(b: string, k: string, n: nat)
    requires n <= |b|
    ensures Body(b, k)[n..] == Body(b[n..], k) && forall i :: 0 <= i < n ==> Body(b, k)[i] == b[i]
    ensures b == [] ==> Body(b, k)[0] == '"' && Body(b, k)[1..] == k
  {
  }

  lemma {:induction false} LiteralReads(b: string, s: string, k: string, out: string)
    requires Spells(b, s)
    ensures ParseString(Body(b, k), out) == Ok(Str(out + s), k)
    decreases |b|
  {
    hide ParseString, Means, Escapable, Unescaped, Spells, Body;
    StringStart(b, k);
    StringStep(Body(b, k), out);
    if b == [] {
      SpellsNone(s);
      BodyStep(b, k, 0);
      assert out + s == out;
    } else {
      SpellsStep(b, s);
      var n := if b[0] == '\\' then 2 else 1;
      BodyStep(b, k, n);
      if n == 2 { MeansUnescaped(b[1], s[0]); }
      LiteralReads(b[n..], s[1..], k, out + [s[0]]);
      assert out + [s[0]] + s[1..] == out + s;
    }
  }

  lemma StringStart(b: string, k: string)
    ensures Body(b, k) != [] && |b| < |Body(b, k)|
  {
  }

  lemma SpellsNone(s: string)
    ensures Spells([], s) <==> s == []
  {
  }

  lemma {:induction false} LiteralOnly(t: string, out: string) returns (b: string, s: string)
    requires ParseString(t, out).Ok?
    ensures Spells(b, s) && ParseString(t, out).v == Str(out + s) && t == Body(b, ParseString(t, out).rest)
    decreases |t|
  {
    hide ParseString, Means, Escapable, Unescaped, Spells, Body;
    if t == [] {
      StringEnd(out);
      b, s := [], [];
    } else {
      StringStep(t, out);
      if t[0] == '"' {
        b, s := [], [];
        SpellsNone(s);
        BodyEnds(t);
        assert out + s == out;
      } else {
        var n, c := if t[0] == '\\' then 2 else 1, if t[0] == '\\' then Unescaped(t[1]) else t[0];
        var b', s' := LiteralOnly(t[n..], out + [c]);
        if n == 2 { MeansUnescaped(t[1], c); }
        b, s := SpellsFront(t, n, c, b', s', ParseString(t, out).rest);
        assert out + [c] + s' == out + s;
      }
    }
  }

  lemma BodyEnds(t: string)
    requires t != [] && t[0] == '"'
    ensures t == Body([], t[1..])
  {
  }

  lemma SpellsFront(t: string, n: nat, c: char, b: string, s: string, rest: string) returns (b': string, s': string)
    requires 0 < n <= 2 && n <= |t| && Spells(b, s) && t[n..] == Body(b, rest)
    requires if n == 2 then t[0] == '\\' && Means(t[1], c) else c == t[0] && c != '"' && c != '\\'
    ensures Spells(b', s') && s' == [c] + s && t == Body(b', rest)
  {
    hide Spells, Means;
    b', s' := t[..n] + b, [c] + s;
    assert t[..n] == if n == 2 then [t[0], t[1]] else [t[0]];
    if n == 2 { SpellsEscape(b, s, t[1], c); } else { SpellsPlain(b, s, c); }
    assert t == t[..n] + t[n..];
  }

  lemma SpellsEscape(b: string, s: string, e: char, c: char)
    requires Spells(b, s) && Means(e, c)
    ensures Spells(['\\', e] + b, [c] + s)
  {
    assert (['\\', e] + b)[2..] == b && ([c] + s)[1..] == s;
  }

  lemma SpellsPlain(b: string, s: string, c: char)
    requires Spells(b, s) && c != '"' && c != '\\'
    ensures Spells([c] + b, [c] + s)
  {
    assert ([c] + b)[1..] == b && ([c] + s)[1..] == s;
  }

  lemma {:induction false} EscapedSpells(s: string)
    ensures Spells(Escaped(s), s)
  {
    hide Spells;
    if s == [] {
      SpellsNone(s);
    } else {
      var c := s[0];
      EscapedSpells(s[1..]);
      assert s == [c] + s[1..];
      if c == '"' || c == '\\' {
        SpellsEscape(Escaped(s[1..]), s[1..], c, c);
      } else {
        SpellsPlain(Escaped(s[1..]), s[1..], c);
      }
    }
  }

  /** Every string reads back from its literal. */
  lemma StringBack(s: string, k: string, depth: nat)
    requires depth <= MAX_DEPTH
    ensures ParseForm("\"" + Body(Escaped(s), k), depth) == Ok(Str(s), k)
  {
    hide ParseForm, Escaped, Spells, Body;
    EscapedSpells(s);
    LiteralExact(Body(Escaped(s), k), depth, s, k);
  }

  /** A literal reads as the string s, up to `rest`, exactly when what stands before
      its closing quote spells s. */
  lemma LiteralExact(t: string, depth: nat, s: string, rest: string)
    requires depth <= MAX_DEPTH
    ensures ParseForm("\"" + t, depth) == Ok(Str(s), rest) <==>
            exists b :: Spells(b, s) && t == Body(b, rest)
  {
    hide ParseForm, ParseString, Spells, Body;
    var u := "\"" + t;
    assert u[0] == '"' && u[1..] == t;
    SkipNone(u);
    FormStep(u, depth);
    if ParseString(t, []) == Ok(Str(s), rest) {
      var b, s' := LiteralOnly(t, []);
      assert [] + s' == s';
      assert Spells(b, s);
    }
    if b :| Spells(b, s) && t == Body(b, rest) {
      LiteralReads(b, s, rest, []);
      assert [] + s == s;
    }
  }

  // ---- quotes ----

  /** A result behind a quote sign. */
  function Quote(r: Result, k: string): Result {
    if r.Ok? then Ok(Pair(Sym("quote"), Pair(r.v, Nil)), k) else Fail
  }

  /** A quoted list reads as (quote list); a quoted token is always a name, also when
      it looks like a number, nil, true or false. */
  lemma QuoteReads(v: Sexp, k: string, depth: nat)
    requires Spelled(v) && Ends(k) && depth <= MAX_DEPTH
    ensures ParseForm("'" + (Print(v) + k), depth) ==
            Quote(if v.Pair? then Reads(v, depth + 1) else NameOf(Print(v)), k)
  {
    hide ParseForm, ParseAtom, Print, Reads, NameOf;
    var u := Print(v) + k;
    var t := "'" + u;
    PrintStart(v);
    assert t[0] == '\'' && t[1..] == u && u[0] == Print(v)[0];
    SkipNone(t);
    SkipNone(u);
    FormQuote(t, depth);
    if v.Pair? {
      PairParts(v, k);
      ReadsForm(v, k, depth + 1);
    } else {
      AtomSpelled(v);
      NameReads(Print(v), k);
    }
  }

  /** A token as a name: it must not be too long, and ends at a NUL. */
  function NameOf(tok: string): Result { if |tok| <= SYM_TOK then Ok(Sym(CString(tok)), []) else Fail }

  lemma NameReads(tok: string, k: string)
    requires tok != [] && (forall i :: 0 <= i < |tok| ==> !IsDelim(tok[i])) && Ends(k)
    ensures Quoted(tok + k, 0) == Before(NameOf(tok), k) && forall d :: Quoted(tok + k, d) == Quoted(tok + k, 0)
  {
    hide ParseForm;
    var s := tok + k;
    TokLenIs(tok, k);
    assert s[..|tok|] == tok && s[|tok|..] == k && s[0] == tok[0];
  }

  // ---- white space, comments and several forms ----

  /** Position i is white space or inside a comment, which a semicolon opens and only
      the end of its line closes. */
  ghost predicate Blank(s: string, i: nat)
    requires i < |s|
  {
    IsSpace(s[i]) || exists j :: 0 <= j <= i && Opens(s, j, i)
  }

  predicate Opens(s: string, j: int, i: int)
    requires 0 <= j <= i < |s|
  {
    s[j] == ';' && forall m :: j <= m <= i ==> s[m] != '\n'
  }

  lemma {:induction false} LineEnds(s: string)
    ensures var n := |s| - |SkipLine(s)|;
            0 <= n && (forall i :: 0 <= i < n ==> s[i] != '\n') && (n < |s| ==> s[n] == '\n')
  {
    if s != [] && s[0] != '\n' {
      LineEnds(s[1..]);
    }
  }

  /** Nothing in front of a line's end, or of a space, opens a comment behind it. */
  lemma BlankBehind(s: string, n: nat, i: nat)
    requires 0 < n <= i < |s| && (s[n] == '\n' || (n == 1 && s[0] != ';'))
    ensures Blank(s, i) <==> Blank(s[n..], i - n)
  {
    var t, d := s[n..], i - n;
    assert t[d] == s[i];
    forall j | n <= j <= i ensures Opens(s, j, i) <==> Opens(t, j - n, i - n) {
      assert forall m :: j <= m <= i ==> s[m] == t[m - n];
      if Opens(t, j - n, i - n) {
        forall m | j <= m <= i ensures s[m] != '\n' { assert t[m - n] == s[m]; }
      }
    }
    if j :| 0 <= j <= i && Opens(s, j, i) {
      assert j >= n;
      assert Opens(t, j - n, i - n);
    }
    if j :| 0 <= j <= d && Opens(t, j, d) {
      assert Opens(s, j + n, i);
    }
  }

  /** The blank characters at the front are the first n. */
  ghost predicate BlankTo(s: string, n: int) {
    0 <= n <= |s| && (forall i :: 0 <= i < n ==> Blank(s, i)) && (n < |s| ==> !Blank(s, n))
  }

  lemma BlankOn(s: string, n: nat, m: int)
    requires 0 < n <= |s| && (n < |s| ==> s[n] == '\n' || (n == 1 && s[0] != ';'))
    requires (forall i :: 0 <= i < n ==> Blank(s, i)) && BlankTo(s[n..], m)
    ensures BlankTo(s, n + m)
  {
    hide Blank;
    forall i: nat | n <= i < |s| ensures Blank(s, i) <==> Blank(s[n..], i - n) { BlankBehind(s, n, i); }
  }

  /** Exactly the blank characters at the front are skipped. */
  lemma {:induction false} SkipExact(s: string)
    ensures BlankTo(s, |s| - |SkipWs(s)|)
    decreases |s|
  {
    hide Blank, BlankTo, SkipWs, SkipLine;
    SkipStep(s);
    if s == [] {
      NoBlank(s);
    } else if IsSpace(s[0]) {
      SkipExact(s[1..]);
      SpaceBlank(s, 0);
      BlankOn(s, 1, |s| - 1 - |SkipWs(s)|);
    } else if s[0] == ';' {
      var u := SkipLine(s[1..]);
      var n := |s| - |u|;
      LineEnds(s[1..]);
      assert u == s[n..];
      SkipExact(u);
      forall i: nat | i < n ensures Blank(s, i) { CommentBlank(s, i); }
      BlankOn(s, n, |u| - |SkipWs(s)|);
    } else {
      NoBlank(s);
    }
  }

  lemma NoBlank(s: string)
    requires s == [] || (!IsSpace(s[0]) && s[0] != ';')
    ensures BlankTo(s, 0)
  {
  }

  lemma SpaceBlank(s: string, i: nat)
    requires i < |s| && IsSpace(s[i])
    ensures Blank(s, i)
  {
  }

  lemma CommentBlank(s: string, i: nat)
    requires i < |s| && s[0] == ';' && forall m :: 1 <= m <= i ==> s[m] != '\n'
    ensures Blank(s, i)
  {
    assert Opens(s, 0, i);
  }

  /** Several forms, one behind the other. */
  function PrintAll(vs: seq<Sexp>): string {
    if vs == [] then [] else Print(vs[0]) + (" " + PrintAll(vs[1..]))
  }

  function ListOf(vs: seq<Sexp>): Sexp { if vs == [] then Nil else Pair(vs[0], ListOf(vs[1..])) }

  lemma SpaceInAll(t: string, acc: Sexp)
    ensures ParseAll(" " + t, acc) == ParseAll(t, acc)
  {
    SkipSpace(t);
  }

  lemma {:induction false} ReadsSeveral(vs: seq<Sexp>, acc: Sexp)
    requires forall i :: 0 <= i < |vs| ==> Legible(vs[i]) && Depth(vs[i]) <= MAX_DEPTH
    ensures ParseAll(PrintAll(vs), acc) == Ok(ReverseOnto(acc, ListOf(vs)), [])
    decreases |vs|
  {
    hide ParseForm, ParseAll, Legible, Depth, Print, Reads, Spelled;
    if vs == [] {
      AllDone(acc);
    } else {
      var v, rest := vs[0], " " + PrintAll(vs[1..]);
      LegibleSpelled(v);
      ReadsExact(v, 0);
      ReadsForm(v, rest, 0);
      PrintStart(v);
      var t := Print(v) + rest;
      assert t[0] == Print(v)[0];
      AllStep(t, acc);
      SpaceInAll(PrintAll(vs[1..]), Pair(v, acc));
      ReadsSeveral(vs[1..], Pair(v, acc));
      assert ReverseOnto(Pair(v, acc), ListOf(vs[1..])) == ReverseOnto(acc, ListOf(vs));
    }
  }

  /** A text of several trees reads as the list of them, in order. */
  lemma ReadBackAll(vs: seq<Sexp>)
    requires forall i :: 0 <= i < |vs| ==> Legible(vs[i]) && Depth(vs[i]) <= MAX_DEPTH
    ensures ParseAll(PrintAll(vs), Nil) == Ok(ListOf(vs), [])
  {
    hide ParseAll, Legible, Depth;
    ReadsSeveral(vs, Nil);
  }

  // ---- other spellings of a number ----

  function Zeros(k: nat): string { if k == 0 then [] else "0" + Zeros(k - 1) }

  lemma {:induction false} ZerosDigits(k: nat)
    ensures |Zeros(k)| == k && forall i :: 0 <= i < k ==> Zeros(k)[i] == '0'
  {
    if k > 0 { ZerosDigits(k - 1); }
  }

  lemma {:induction false} LeadingZeros(z: string, s: string)
    requires (forall i :: 0 <= i < |z| ==> z[i] == '0') && forall i :: 0 <= i < |s| ==> IsDigit(s[i])
    ensures DigitsValue(z + s) == DigitsValue(s)
    decreases |z| + |s|
  {
    var t := z + s;
    if s != [] {
      var n := |s| - 1;
      assert t[..|t| - 1] == z + s[..n] && t[|t| - 1] == s[n];
      LeadingZeros(z, s[..n]);
    } else if z != [] {
      assert t == z && z[..|z| - 1] + [] == z[..|z| - 1];
      LeadingZeros(z[..|z| - 1], []);
      assert DigitValue('0') == 0;
    }
  }

  /** A number may have a sign, also plus, and leading zeros; it is refused exactly
      when the token is too long or the value out of range. */
  lemma NumberReads(sign: string, k: nat, n: nat)
    requires sign == "" || sign == "-" || sign == "+"
    ensures var tok, i := sign + (Zeros(k) + Digits(n)), if sign == "-" then 0 - n else n;
            AtomOf(tok, false) == if |tok| <= INT_TOK && INT48_MIN <= i <= INT48_MAX then Ok(Int(i), []) else Fail
  {
    hide AtomOf, IntShaped, IntValue, Zeros, Digits, DigitsValue;
    var body := Zeros(k) + Digits(n);
    ZerosDigits(k);
    LeadingZeros(Zeros(k), Digits(n));
    DigitsInverse(n);
    assert AllDigits(body) && DigitsValue(body) == n;
    SignedValue(sign, body);
    NumberAtom(sign + body);
  }

  lemma SignedValue(sign: string, body: string)
    requires (sign == "" || sign == "-" || sign == "+") && AllDigits(body)
    ensures IntShaped(sign + body)
    ensures IntValue(sign + body) == if sign == "-" then 0 - DigitsValue(body) else DigitsValue(body)
  {
    hide DigitsValue;
    var tok := sign + body;
    assert IsDigit(body[0]);
    if sign == "" {
      assert tok == body;
    } else {
      assert tok[0] == sign[0] && tok[1..] == body;
    }
  }

  lemma NumberAtom(tok: string)
    requires IntShaped(tok)
    ensures AtomOf(tok, false) ==
            if |tok| <= INT_TOK && INT48_MIN <= IntValue(tok) <= INT48_MAX then Ok(Int(IntValue(tok)), []) else Fail
  {
    hide IntValue;
  }

  // ---- the reader as it runs ----

  lemma SkipStep(s: string)
    ensures s == [] ==> SkipWs(s) == s
    ensures s != [] && IsSpace(s[0]) ==> SkipWs(s) == SkipWs(s[1..])
    ensures s != [] && s[0] == ';' ==> SkipWs(s) == SkipWs(SkipLine(s[1..]))
    ensures s != [] && !IsSpace(s[0]) && s[0] != ';' ==> SkipWs(s) == s
  {
  }

  lemma LineStep(s: string)
    ensures SkipLine(s) == if s == [] || s[0] == '\n' then s else SkipLine(s[1..])
  {
  }

  lemma TokStep(s: string)
    ensures TokLen(s) == if s == [] || IsDelim(s[0]) then 0 else 1 + TokLen(s[1..])
  {
  }

  lemma Cut(s: string, a: nat, b: nat)
    requires a <= b <= |s|
    ensures s[a..][..b - a] == s[a..b] && s[a..][b - a..] == s[b..]
  {
  }

  lemma SkipTwice(s: string)
    ensures SkipWs(SkipWs(s)) == SkipWs(s)
  {
  }

  lemma StringStep(s: string, out: string)
    requires s != []
    ensures s[0] == '"' ==> ParseString(s, out) == Ok(Str(out), s[1..])
    ensures s[0] == '\\' && (|s| < 2 || !Escapable(s[1])) ==> ParseString(s, out) == Fail
    ensures s[0] == '\\' && |s| >= 2 && Escapable(s[1]) ==>
      ParseString(s, out) == ParseString(s[2..], out + [Unescaped(s[1])])
    ensures s[0] != '"' && s[0] != '\\' ==> ParseString(s, out) == ParseString(s[1..], out + [s[0]])
  {
  }

  lemma StringEnd(out: string)
    ensures ParseString([], out) == Fail
  {
  }

  predicate AtDot(t: string, acc: Sexp) { acc.Pair? && |t| > 1 && t[0] == '.' && IsDelim(t[1]) }

  lemma ListStep(s: string, depth: nat, acc: Sexp)
    ensures var t := SkipWs(s);
            && (t == [] ==> ParseList(s, depth, acc) == Fail)
            && (t != [] && t[0] == ')' ==> ParseList(s, depth, acc) == Ok(ReverseOnto(acc, Nil), t[1..]))
            && (t != [] && t[0] != ')' && !AtDot(t, acc) ==>
                  var r := ParseForm(t, depth);
                  ParseList(s, depth, acc) == if r.Fail? then Fail else ParseList(r.rest, depth, Pair(r.v, acc)))
  {
    hide ParseForm, SkipWs;
  }

  lemma FormStep(s: string, depth: nat)
    ensures var t := SkipWs(s);
            && (depth > MAX_DEPTH || t == [] ==> ParseForm(s, depth) == Fail)
            && (depth <= MAX_DEPTH && t != [] ==>
                  && (t[0] == '(' ==> ParseForm(s, depth) == ParseList(t[1..], depth + 1, Nil))
                  && (t[0] == '"' ==> ParseForm(s, depth) == ParseString(t[1..], []))
                  && (t[0] != '(' && t[0] != '"' && t[0] != '\'' ==> ParseForm(s, depth) == ParseAtom(t, false)))
  {
    hide ParseList, ParseString, ParseAtom, SkipWs;
  }

  lemma FormStart(s: string, depth: nat)
    ensures ParseForm(s, depth) == ParseForm(SkipWs(s), depth) && SkipWs(SkipWs(s)) == SkipWs(s)
    ensures depth > MAX_DEPTH || SkipWs(s) == [] ==> ParseForm(s, depth) == Fail
  {
    hide ParseList, ParseString, ParseAtom, SkipWs;
    SkipTwice(s);
  }

  lemma FormShort(s: string, depth: nat)
    ensures ParseForm(s, depth).Ok? ==> |ParseForm(s, depth).rest| < |s|
  {
  }

  function Quoted(u: string, depth: nat): Result {
    if u != [] && (u[0] == '(' || u[0] == '"') then ParseForm(u, depth) else ParseAtom(u, true)
  }

  lemma FormQuote(s: string, depth: nat)
    requires depth <= MAX_DEPTH && SkipWs(s) != [] && SkipWs(s)[0] == '\''
    ensures var u := SkipWs(SkipWs(s)[1..]);
            var r := Quoted(u, depth + 1);
            ParseForm(s, depth) == if u == [] || r.Fail? then Fail else Ok(Pair(Sym("quote"), Pair(r.v, Nil)), r.rest)
  {
    hide ParseList, ParseString, ParseAtom, SkipWs;
  }

  /** The parenthesis that must close a dotted tail. */
  function Closed(rest: string, acc: Sexp, tail: Sexp): Result {
    var u := SkipWs(rest);
    if u == [] || u[0] != ')' then Fail else Ok(ReverseOnto(acc, tail), u[1..])
  }

  lemma ListDot(s: string, depth: nat, acc: Sexp)
    requires AtDot(SkipWs(s), acc)
    ensures var r := ParseForm(SkipWs(s)[1..], depth);
            && (r.Fail? ==> ParseList(s, depth, acc) == Fail)
            && (r.Ok? ==> ParseList(s, depth, acc) == Closed(r.rest, acc, r.v))
  {
    hide ParseForm, SkipWs;
  }

  class Parser {
    const src: string
    var pos: nat
    var failed: bool

    constructor (text: string)
      ensures src == text && pos == 0 && !failed
    {
      src, pos, failed := text, 0, false;
    }

    function Rest(): string
      requires pos <= |src|
      reads this`pos
    {
      src[pos..]
    }

    /** The position and failure flag match a result of the specification. */
    ghost predicate Shows(r: Result, v: Sexp)
      reads this
    {
      && pos <= |src|
      && match r
         case Ok(w, rest) => !failed && v == w && Rest() == rest
         case Fail => failed
    }

    lemma Step()
      requires pos < |src|
      ensures Rest() != [] && Rest()[0] == src[pos] && Rest()[1..] == src[pos + 1..]
    {
    }

    method Skip()
      requires pos <= |src|
      modifies this`pos
      ensures pos <= |src| && Rest() == SkipWs(old(Rest())) && old(pos) <= pos
    {
      hide SkipWs, SkipLine;
      while pos < |src|
        invariant old(pos) <= pos <= |src| && SkipWs(Rest()) == SkipWs(old(Rest()))
        decreases |src| - pos
      {
        Step();
        SkipStep(Rest());
        if IsSpace(src[pos]) {
          pos := pos + 1;
        } else if src[pos] == ';' {
          Comment();
        } else {
          return;
        }
      }
      SkipStep(Rest());
    }

    /** Go to the end of the line. */
    method Comment()
      requires pos < |src|
      modifies this`pos
      ensures old(pos) < pos <= |src| && Rest() == SkipLine(old(Rest())[1..])
    {
      hide SkipLine;
      ghost var line := Rest()[1..];
      Step();
      pos := pos + 1;
      while pos < |src| && src[pos] != '\n'
        invariant old(pos) < pos <= |src| && SkipLine(Rest()) == SkipLine(line)
        decreases |src| - pos
      {
        Step();
        LineStep(Rest());
        pos := pos + 1;
      }
      if pos < |src| { Step(); }
      LineStep(Rest());
    }

    /** The longest token from here on. */
    method Token() returns (tok: string)
      requires pos <= |src|
      modifies this`pos
      ensures old(pos) <= pos <= |src|
      ensures var s := old(Rest()); tok == s[..TokLen(s)] && Rest() == s[TokLen(s)..]
    {
      hide TokLen;
      var start := pos;
      ghost var s := Rest();
      while pos < |src| && !IsDelim(src[pos])
        invariant start <= pos <= |src| && TokLen(s) == pos - start + TokLen(Rest())
        decreases |src| - pos
      {
        Step();
        TokStep(Rest());
        pos := pos + 1;
      }
      if pos < |src| { Step(); }
      TokStep(Rest());
      Cut(src, start, pos);
      tok := src[start..pos];
    }

    method Atom(asName: bool) returns (v: Sexp)
      requires pos <= |src| && !failed
      modifies this`pos, this`failed
      ensures Shows(ParseAtom(old(Rest()), asName), v) && old(pos) <= pos
    {
      hide AtomOf, TokLen;
      v := Nil;
      var tok := Token();
      match AtomOf(tok, asName) {
        case Ok(w, _) => v := w;
        case Fail => failed := true;
      }
    }

    method StringBody() returns (v: Sexp)
      requires pos <= |src| && !failed
      modifies this`pos, this`failed
      ensures Shows(ParseString(old(Rest()), []), v) && old(pos) <= pos
    {
      hide ParseString;
      v := Nil;
      var out := "";
      while true
        invariant old(pos) <= pos <= |src| && !failed && ParseString(Rest(), out) == ParseString(old(Rest()), [])
        decreases |src| - pos
      {
        if pos >= |src| {
          assert Rest() == [];
          StringEnd(out);
          failed := true;
          return;
        }
        Step();
        StringStep(Rest(), out);
        var c := src[pos];
        if c == '"' {
          pos := pos + 1;
          return Str(out);
        }
        ghost var s := Rest();
        pos := pos + 1;
        if c == '\\' {
          if pos >= |src| { failed := true; return; }
          Step();
          assert s[1] == src[pos] && s[2..] == src[pos + 1..];
          var e := src[pos];
          if !Escapable(e) { failed := true; return; }
          c := Unescaped(e);
          pos := pos + 1;
        }
        out := out + [c];
      }
    }

    /** The elements behind an opening parenthesis. */
    method ListTail(depth: nat) returns (v: Sexp)
      requires pos <= |src| && !failed
      modifies this`pos, this`failed
      ensures Shows(ParseList(old(Rest()), depth, Nil), v) && old(pos) <= pos
      decreases |src| - pos, 4
    {
      hide ParseForm, ParseList, SkipWs;
      v := Nil;
      var acc := Nil;
      while true
        invariant old(pos) <= pos <= |src| && !failed && (acc.Nil? || acc.Pair?)
        invariant ParseList(Rest(), depth, acc) == ParseList(old(Rest()), depth, Nil)
        decreases |src| - pos
      {
        ListStep(Rest(), depth, acc);
        ghost var s := Rest();
        Skip();
        if pos >= |src| { failed := true; return; }
        Step();
        if src[pos] == ')' {
          pos := pos + 1;
          return ReverseOnto(acc, Nil);
        }
        if acc.Pair? && src[pos] == '.' && pos + 1 < |src| && IsDelim(src[pos + 1]) {
          assert Rest()[1] == src[pos + 1];
          v := DotTail(depth, acc, s);
          return;
        }
        if pos + 1 < |src| { assert Rest()[1] == src[pos + 1]; }
        var form := Form(depth);
        if failed { return; }
        acc := Pair(form, acc);
      }
    }

    /** What a quote applies to: atoms are names here. */
    method Quote(depth: nat) returns (v: Sexp)
      requires pos <= |src| && !failed
      modifies this`pos, this`failed
      ensures var u := SkipWs(old(Rest())); Shows(if u == [] then Fail else Quoted(u, depth), v) && old(pos) <= pos
      decreases |src| - pos, 3
    {
      hide ParseForm, ParseAtom;
      Skip();
      v := Nil;
      if pos >= |src| { failed := true; return; }
      Step();
      if src[pos] == '(' || src[pos] == '"' { v := Form(depth); } else { v := Atom(true); }
    }

    /** A dotted tail and the closing parenthesis behind it. */
    method DotTail(depth: nat, acc: Sexp, ghost s: string) returns (v: Sexp)
      requires pos < |src| && !failed && AtDot(Rest(), acc) && Rest() == SkipWs(s)
      modifies this`pos, this`failed
      ensures Shows(ParseList(s, depth, acc), v) && old(pos) <= pos
      decreases |src| - pos, 0
    {
      hide ParseForm, ParseList, SkipWs, Closed;
      v := Nil;
      Step();
      ListDot(s, depth, acc);
      pos := pos + 1;
      var tail := Form(depth);
      if failed { return; }
      v := Close(acc, tail);
    }

    method Close(acc: Sexp, tail: Sexp) returns (v: Sexp)
      requires pos <= |src| && !failed
      modifies this`pos, this`failed
      ensures Shows(Closed(old(Rest()), acc, tail), v) && old(pos) <= pos
    {
      hide SkipWs, ReverseOnto;
      v := Nil;
      Skip();
      if pos >= |src| { failed := true; return; }
      Step();
      if src[pos] != ')' { failed := true; return; }
      pos := pos + 1;
      v := ReverseOnto(acc, tail);
    }

    method Form(depth: nat) returns (v: Sexp)
      requires pos <= |src| && !failed
      modifies this`pos, this`failed
      ensures Shows(ParseForm(old(Rest()), depth), v) && old(pos) <= pos
      ensures !failed ==> old(pos) < pos
      decreases |src| - pos, 2
    {
      hide ParseForm, SkipWs;
      v := Nil;
      FormStart(Rest(), depth);
      if depth > MAX_DEPTH { failed := true; return; }
      Skip();
      if pos >= |src| { failed := true; return; }
      v := Inner(depth);
    }

    /** A form that starts here. */
    method Inner(depth: nat) returns (v: Sexp)
      requires pos < |src| && !failed && SkipWs(Rest()) == Rest() && depth <= MAX_DEPTH
      modifies this`pos, this`failed
      ensures Shows(ParseForm(old(Rest()), depth), v) && old(pos) <= pos
      ensures !failed ==> old(pos) < pos
      decreases |src| - pos, 1
    {
      hide ParseForm, ParseList, ParseString, ParseAtom, SkipWs;
      v := Nil;
      FormStep(Rest(), depth);
      FormShort(Rest(), depth);
      Step();
      if src[pos] == '(' {
        pos := pos + 1;
        v := ListTail(depth + 1);
      } else if src[pos] == '\'' {
        FormQuote(Rest(), depth);
        pos := pos + 1;
        var form := Quote(depth + 1);
        if !failed { v := Pair(Sym("quote"), Pair(form, Nil)); }
      } else if src[pos] == '"' {
        pos := pos + 1;
        v := StringBody();
      } else {
        v := Atom(false);
      }
    }

    /** Every form of the text, as a list. */
    method All() returns (v: Sexp)
      requires pos == 0 && !failed
      modifies this`pos, this`failed
      ensures match ParseAll(src, Nil) case Ok(w, _) => !failed && v == w case Fail => failed && v == Int(-1)
    {
      hide ParseForm, SkipWs;
      var acc := Nil;
      assert Rest() == src;
      while true
        invariant pos <= |src| && !failed && ParseAll(Rest(), acc) == ParseAll(src, Nil)
        decreases |src| - pos
      {
        Skip();
        if pos >= |src| { break; }
        SkipTwice(Rest());
        var form := Form(0);
        if failed { return Int(-1); }
        acc := Pair(form, acc);
      }
      v := ReverseOnto(acc, Nil);
    }
  }
}
