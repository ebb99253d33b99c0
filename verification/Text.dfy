/** Text: the string operations the content pipeline relies on (trimming, fields, case). */
module Text {

  // The characters Go's unicode.IsSpace accepts.
  predicate IsSpace(c: char) {
    || c in "\t\n\U{B}\U{C}\r \U{85}\U{A0}\U{1680}\U{2028}\U{2029}\U{202F}\U{205F}\U{3000}"
    || '\U{2000}' <= c <= '\U{200A}'
  }

  predicate Trimmed(s: string) {
    s != "" ==> !IsSpace(s[0]) && !IsSpace(s[|s| - 1])
  }

  function TrimLeft(s: string): string {
    if s != "" && IsSpace(s[0]) then TrimLeft(s[1..]) else s
  }

  function TrimRight(s: string): (r: string)
    ensures r <= s
  {
    if s != "" && IsSpace(s[|s| - 1]) then TrimRight(s[..|s| - 1]) else s
  }

  /** strings.TrimSpace */
  function Trim(s: string): string {
    TrimRight(TrimLeft(s))
  }

  lemma {:induction false} TrimLeftStarts(s: string)
    ensures TrimLeft(s) != "" ==> !IsSpace(TrimLeft(s)[0])
  {
    if s != "" && IsSpace(s[0]) { TrimLeftStarts(s[1..]); }
  }

  lemma {:induction false} TrimRightEnds(s: string)
    ensures var r := TrimRight(s); r != "" ==> !IsSpace(r[|r| - 1]) && r[0] == s[0]
  {
    hide IsSpace;
    if s != "" && IsSpace(s[|s| - 1]) { TrimRightEnds(s[..|s| - 1]); }
  }

  /** Trimming leaves nothing to trim, and changes nothing that is already trimmed. */
  lemma TrimIsTrimmed(s: string)
    ensures Trimmed(Trim(s))
    ensures Trimmed(s) ==> Trim(s) == s
  {
    TrimLeftStarts(s);
    TrimRightEnds(TrimLeft(s));
  }

  predicate AllSpaces(s: string) { forall c | c in s :: IsSpace(c) }

  lemma {:induction false} TrimLeftOfSpaces(s: string)
    ensures TrimLeft(s) == "" <==> AllSpaces(s)
    ensures TrimLeft(s) != "" ==> !IsSpace(TrimLeft(s)[0])
  {
    hide IsSpace;
    if s != "" {
      assert s == [s[0]] + s[1..];
      TrimLeftOfSpaces(s[1..]);
    }
  }

  /** Nothing is left of a text exactly when it is nothing but spaces. */
  lemma TrimOfSpaces(s: string)
    ensures Trim(s) == "" <==> AllSpaces(s)
  {
    hide IsSpace;
    TrimLeftOfSpaces(s);
    KeepsFirst(TrimLeft(s));
  }

  lemma {:induction false} KeepsFirst(s: string)
    requires s != "" ==> !IsSpace(s[0])
    ensures TrimRight(s) == "" <==> s == ""
  {
    hide IsSpace;
    if |s| > 1 && IsSpace(s[|s| - 1]) { KeepsFirst(s[..|s| - 1]); }
  }

  /** How many leading characters of s are not spaces. */
  function WordLength(s: string): (n: nat)
    ensures n <= |s|
    ensures s != "" && !IsSpace(s[0]) ==> n > 0
  {
    if s == "" || IsSpace(s[0]) then 0 else 1 + WordLength(s[1..])
  }

  /** strings.Fields */
  function Fields(s: string): seq<string>
    decreases |s|
  {
    if s == "" then []
    else if IsSpace(s[0]) then Fields(s[1..])
    else var n := WordLength(s); [s[..n]] + Fields(s[n..])
  }

  function Join(parts: seq<string>, sep: string): string {
    if parts == [] then ""
    else if |parts| == 1 then parts[0]
    else parts[0] + sep + Join(parts[1..], sep)
  }

  /** strings.ToLower on the letters of the English alphabet. */
  function ToLower(s: string): (r: string)
    ensures |r| == |s|
  {
    seq(|s|, i requires 0 <= i < |s| => if 'A' <= s[i] <= 'Z' then (s[i] as int + 32) as char else s[i])
  }

  /** strings.ToUpper on the letters of the English alphabet. */
  function ToUpper(s: string): (r: string)
    ensures |r| == |s|
  {
    seq(|s|, i requires 0 <= i < |s| => if 'a' <= s[i] <= 'z' then (s[i] as int - 32) as char else s[i])
  }

  /** strings.TrimRight with a cut set. */
  function TrimRightAny(s: string, cut: string): string {
    if s != "" && s[|s| - 1] in cut then TrimRightAny(s[..|s| - 1], cut) else s
  }

  function Decimal(n: nat): string {
    (if n < 10 then "" else Decimal(n / 10)) + ["0123456789"[n % 10]]
  }

  function DigitValue(c: char): nat
    requires '0' <= c <= '9'
  {
    c as nat - '0' as nat
  }

  predicate Digits(s: string) { forall c | c in s :: '0' <= c <= '9' }

  function Number(s: string): nat
    requires Digits(s)
  {
    if s == "" then 0
    else
      var n := |s| - 1;
      assert s[n] in s && forall c | c in s[..n] :: c in s;
      10 * Number(s[..n]) + DigitValue(s[n])
  }

  /** A number is written in digits that read as that number. */
  lemma {:induction false} DecimalReads(n: nat)
    ensures var s := Decimal(n); s != "" && Digits(s) && Number(s) == n
  {
    var last := ["0123456789"[n % 10]];
    assert DigitValue(last[0]) == n % 10;
    var front := if n < 10 then "" else Decimal(n / 10);
    if n >= 10 { DecimalReads(n / 10); }
    assert Decimal(n) == front + last && (front + last)[..|front|] == front;
    assert Digits(front) && Number(front) == n / 10;
  }

  // ---- lower case ------------------------------------------------------------------------

  lemma LowerIs(s: string, t: string)
    requires t == ToLower(s)
    ensures forall i | 0 <= i < |s| :: IsSpace(t[i]) <==> IsSpace(s[i])
    ensures forall i | 0 <= i < |s| && !('A' <= s[i] <= 'Z') :: t[i] == s[i]
    ensures forall i | 0 <= i < |s| && 'A' <= s[i] <= 'Z' :: 'a' <= t[i] <= 'z'
  {
  }

  lemma {:induction false} LowerWordLength(s: string)
    ensures WordLength(ToLower(s)) == WordLength(s)
  {
    LowerIs(s, ToLower(s));
    hide IsSpace;
    if s != "" && !IsSpace(s[0]) {
      LowerWordLength(s[1..]);
      assert ToLower(s)[1..] == ToLower(s[1..]);
    }
  }

  function AllLower(words: seq<string>): seq<string> {
    seq(|words|, i requires 0 <= i < |words| => ToLower(words[i]))
  }

  lemma LowerParts(s: string, n: nat)
    requires n <= |s|
    ensures ToLower(s)[n..] == ToLower(s[n..]) && ToLower(s)[..n] == ToLower(s[..n])
  {
  }

  lemma LowerFirst(word: string, rest: seq<string>)
    ensures AllLower([word] + rest) == [ToLower(word)] + AllLower(rest)
  {
    hide ToLower;
  }

  lemma {:induction false} LowerFields(s: string)
    ensures Fields(ToLower(s)) == AllLower(Fields(s))
    decreases |s|
  {
    LowerIs(s, ToLower(s));
    hide IsSpace, ToLower, AllLower;
    if s == "" {
      assert AllLower([]) == [] by { LowerNothing(); }
    } else if IsSpace(s[0]) {
      LowerFields(s[1..]);
      LowerParts(s, 1);
    } else {
      var n := WordLength(s);
      LowerWordLength(s);
      LowerFields(s[n..]);
      LowerParts(s, n);
      LowerFirst(s[..n], Fields(s[n..]));
    }
  }

  lemma LowerNothing()
    ensures AllLower([]) == [] && ToLower("") == ""
  {
  }

  lemma LowerJoined(a: string, b: string)
    ensures ToLower(a + b) == ToLower(a) + ToLower(b)
  {
  }

  lemma {:induction false} LowerJoin(words: seq<string>)
    ensures ToLower(Join(words, " ")) == Join(AllLower(words), " ")
  {
    if |words| > 1 {
      LowerJoin(words[1..]);
      LowerJoined(words[0] + " ", Join(words[1..], " "));
      LowerJoined(words[0], " ");
      assert ToLower(" ") == " ";
      assert AllLower(words)[1..] == AllLower(words[1..]);
    }
  }
}
