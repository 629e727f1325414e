/** Product codes `PRD-<key>-<NN>` (genererCodeProduit, validerCodeProduit) and the
    structural validator of the flat catalogue file (validerFormatFichier).

    A price is its `totalCents`, the integer `round(prix * 100)` of the source. The code
    functions accept any integer, because the file validator hands them whatever price
    it parsed, negative ones included; C++ `%` and `/` truncate toward zero. */
module ValidationFormat {
  import opened Text
  import opened Wrappers

  // ---------------------------------------------------------------------------
  // The checksum scheme, as specification functions
  // ---------------------------------------------------------------------------

  /** The letters of `s`, uppercased, in the order they occur. */
  function Letters(s: string): (r: string)
    ensures |r| <= |s|
    ensures forall k :: 0 <= k < |r| ==> 'A' <= r[k] <= 'Z'
  {
    if s == [] then []
    else Letters(s[..|s| - 1]) + (if IsAlpha(s[|s| - 1]) then [ToUpper(s[|s| - 1])] else [])
  }

  /** A name has at least four letters. */
  predicate HasFourLetters(name: string) {
    |Letters(name)| >= 4
  }

  /** The key: the first (at most) four letters of the name, uppercased. */
  function Key(name: string): (k: string)
    ensures |k| <= 4
    ensures |k| == 4 <==> HasFourLetters(name)
    ensures |k| < 4 ==> k == Letters(name)
    ensures k == Letters(name)[..|k|]
  {
    var l := Letters(name);
    if |l| <= 4 then l else l[..4]
  }

  /** The value of an uppercase letter: 'A' is 1, ..., 'Z' is 26. */
  function LetterValue(c: char): int {
    c as int - 64
  }

  /** The sum of the letter values of a key. */
  function SumValues(k: string): (r: int)
    ensures (forall j :: 0 <= j < |k| ==> 'A' <= k[j] <= 'Z') ==> |k| <= r <= 26 * |k|
  {
    if k == [] then 0 else SumValues(k[..|k| - 1]) + LetterValue(k[|k| - 1])
  }

  /** C++ `a % b` for `b > 0`: the remainder has the sign of `a`. */
  function CRem(a: int, b: int): (r: int)
    requires b > 0
    ensures -b < r < b
    ensures a >= 0 ==> r == a % b
    ensures a <= 0 ==> r <= 0
  {
    if a >= 0 then a % b else -((-a) % b)
  }

  /** C++ `a / b` for `b > 0`: the quotient is truncated toward zero. */
  function CDiv(a: int, b: int): (q: int)
    requires b > 0
    ensures a >= 0 ==> q == a / b
    ensures a >= 0 ==> q >= 0
    ensures a <= 0 ==> q <= 0
    ensures q * b + CRem(a, b) == a
  {
    if a >= 0 then a / b else -((-a) / b)
  }

  /** The control key `cle`: the letter values of the key plus the two digits of the
      cents part of the price, modulo 100, all with C++ arithmetic. */
  function Checksum(name: string, totalCents: int): (cle: int)
    ensures -18 <= cle <= 99
    ensures totalCents >= 0 ==> 0 <= cle
  {
    var cents := CRem(totalCents, 100);
    var dizaine, unite := CDiv(cents, 10), CRem(cents, 10);
    var k := Key(name);
    assert 0 <= SumValues(k) <= 104 by {
      assert forall j :: 0 <= j < |k| ==> k[j] == Letters(name)[j];
    }
    assert -18 <= dizaine + unite <= 18 && (totalCents >= 0 ==> dizaine + unite >= 0) by {
      assert dizaine * 10 + unite == cents;
    }
    CRem(SumValues(k) + dizaine + unite, 100)
  }

  /** The check part of a code: a "0" before any key below 10, then `to_string`. */
  function CheckDigits(cle: int): string {
    (if cle < 10 then "0" else "") + IntToString(cle)
  }

  /** The code `genererCodeProduit` builds for a name and a price. */
  function CodeOf(name: string, totalCents: int): string {
    "PRD-" + Key(name) + "-" + CheckDigits(Checksum(name, totalCents))
  }

  /** What `validerCodeProduit` answers: an 11-character code starting with "PRD-"
      that equals the recomputed code. */
  predicate ValidCode(code: string, name: string, totalCents: int) {
    |code| == 11 && code[..4] == "PRD-" && code == CodeOf(name, totalCents)
  }

  // ---------------------------------------------------------------------------
  // Properties of the scheme
  // ---------------------------------------------------------------------------

  /** The letters of a prefix are a prefix of the letters. */
  lemma {:induction false} LettersOfPrefix(s: string, i: nat)
    requires i <= |s|
    ensures |Letters(s[..i])| <= |Letters(s)|
    ensures Letters(s[..i]) == Letters(s)[..|Letters(s[..i])|]
    decreases |s|
  {
    if i < |s| {
      var t := s[..|s| - 1];
      assert t[..i] == s[..i];
      LettersOfPrefix(t, i);
      assert Letters(s)[..|Letters(t)|] == Letters(t);
    } else {
      assert s[..i] == s;
    }
  }

  /** For a price of at least zero the check part is exactly two decimal digits, the
      tens and the units of the key (zero-padded below 10). */
  lemma CheckDigitsTwoDigits(cle: int)
    requires 0 <= cle <= 99
    ensures CheckDigits(cle) == [DigitChar(cle / 10), DigitChar(cle % 10)]
  {
    if cle >= 10 {
      assert NatToString(cle / 10) == [DigitChar(cle / 10)];
    }
  }

  /** For a price of at least zero the check part denotes the key itself: its two
      digits, read as a decimal number, give back `cle`. */
  lemma CheckDigitsValue(cle: int)
    requires 0 <= cle <= 99
    ensures DecimalValue(CheckDigits(cle)) == cle
  {
    CheckDigitsTwoDigits(cle);
    var d := CheckDigits(cle);
    var hi := [DigitChar(cle / 10)];
    assert hi[..0] == [];
    assert DecimalValue(hi) == cle / 10;
    assert d[..1] == hi;
    assert DecimalValue(d) == (cle / 10) * 10 + cle % 10;
  }

  /** The length of a check part: 2 for a key in 0..99, 3 for -9..-1, 4 for -18..-10. */
  lemma CheckDigitsLength(cle: int)
    requires -18 <= cle <= 99
    ensures |CheckDigits(cle)| == if cle >= 0 then 2 else if cle >= -9 then 3 else 4
  {
    if cle < 0 {
      assert |NatToString(-cle)| == if -cle < 10 then 1 else 2;
    }
  }

  /** The shape of a generated code: the prefix, the key, a dash and the check part;
      for a price of at least zero its length is 7 + |key|, at most 11, and exactly 11
      when the name has at least four letters. */
  lemma CodeShape(name: string, totalCents: int)
    ensures var c := CodeOf(name, totalCents);
            var k := Key(name);
            && c[..4] == "PRD-" && c[4..4 + |k|] == k && c[4 + |k|] == '-'
            && (totalCents >= 0 ==>
                  && |c| == 7 + |k| <= 11
                  && (|c| == 11 <==> HasFourLetters(name)))
  {
    var k, d := Key(name), CheckDigits(Checksum(name, totalCents));
    var c := CodeOf(name, totalCents);
    assert c == "PRD-" + k + "-" + d;
    assert c[..4] == "PRD-";
    assert c[4..4 + |k|] == k;
    CheckDigitsLength(Checksum(name, totalCents));
  }

  /** The checksum formula for a price of at least zero: (sum of the key's letter
      values + tens digit of cents + units digit of cents) mod 100, where each key
      letter is worth 1 to 26. */
  lemma ChecksumFormula(name: string, totalCents: int)
    requires totalCents >= 0
    ensures var k := Key(name);
            && (forall j :: 0 <= j < |k| ==> 1 <= LetterValue(k[j]) <= 26)
            && Checksum(name, totalCents)
               == (SumValues(k) + (totalCents % 100) / 10 + totalCents % 10) % 100
  {
    KeyLetterValues(name);
    UnitsOfCents(totalCents);
  }

  /** Every letter of a key is worth 1 to 26. */
  lemma KeyLetterValues(name: string)
    ensures var k := Key(name);
            forall j :: 0 <= j < |k| ==> 1 <= LetterValue(k[j]) <= 26
  {
    var k := Key(name);
    forall j | 0 <= j < |k| ensures 1 <= LetterValue(k[j]) <= 26 {
      assert k[j] == Letters(name)[j];
    }
  }

  /** The units digit of the cents part is the units digit of the price. */
  lemma UnitsOfCents(n: int)
    requires n >= 0
    ensures (n % 100) % 10 == n % 10
  {
    var q := n / 100;
    assert n == 10 * (10 * q) + n % 100;
  }

  /** The code depends on the price only through the C++ remainder `totalCents % 100`. */
  lemma CodeDependsOnCentsOnly(name: string, p: int, q: int)
    requires CRem(p, 100) == CRem(q, 100)
    ensures CodeOf(name, p) == CodeOf(name, q)
  {
  }

  /** validerCodeProduit: false on a length other than 11 or a prefix other than
      "PRD-"; otherwise the answer is the comparison with the generated code. Since a
      generated code always starts with "PRD-", validity is "equal to the generated
      code, and 11 characters long". */
  lemma ValidCodeIff(code: string, name: string, totalCents: int)
    ensures ValidCode(code, name, totalCents)
            <==> code == CodeOf(name, totalCents) && |CodeOf(name, totalCents)| == 11
    ensures |code| != 11 || code[..4] != "PRD-" ==> !ValidCode(code, name, totalCents)
  {
    CodeShape(name, totalCents);
  }

  /** Round trip: for a price of at least zero, the generated code validates exactly
      when the name has at least four letters. */
  lemma RoundTrip(name: string, totalCents: int)
    requires totalCents >= 0
    ensures ValidCode(CodeOf(name, totalCents), name, totalCents) <==> HasFourLetters(name)
  {
    CodeShape(name, totalCents);
  }

  /** A code that validates against a price of at least zero forces the name to hold
      at least four letters, hence to be non-empty. */
  lemma ValidCodeHasFourLetters(code: string, name: string, totalCents: int)
    requires totalCents >= 0
    requires ValidCode(code, name, totalCents)
    ensures HasFourLetters(name) && name != []
  {
    CodeShape(name, totalCents);
  }

  // Concrete evaluations of the scheme.

  lemma LettersA()
    ensures Letters("A") == "A" && SumValues("A") == 1
  {
    assert "A"[..0] == "" && "A"[0] == 'A';
  }

  lemma LettersAA()
    ensures Letters("AA") == "AA" && SumValues("AA") == 2
  {
    LettersA();
    var s := "AA";
    assert s[..1] == "A" && s[1] == 'A';
    assert Letters(s) == Letters("A") + "A";
    assert SumValues(s) == SumValues("A") + 1;
  }

  lemma LettersAAA()
    ensures Letters("AAA") == "AAA" && SumValues("AAA") == 3
  {
    LettersAA();
    var s := "AAA";
    assert s[..2] == "AA" && s[2] == 'A';
    assert Letters(s) == Letters("AA") + "A";
    assert SumValues(s) == SumValues("AA") + 1;
  }

  /** The key of "AAA" is the whole name, and its letters sum to 3. */
  lemma KeyAAA()
    ensures Key("AAA") == "AAA" && SumValues(Key("AAA")) == 3
  {
    LettersAAA();
  }

  /** With a negative price the check part can take three or four characters, so an
      11-character code can validate with a three-letter key: ("PRD-AAA-0-2", "AAA",
      -5 cents), where the letters sum to 3 and the cents digits to -5. */
  lemma NegativePriceShortKeyValidates()
    ensures ValidCode("PRD-AAA-0-2", "AAA", -5)
    ensures !HasFourLetters("AAA")
  {
    KeyAAA();
    ChecksumAAANegative();
    assert CheckDigits(-2) == "0-2" by {
      assert NatToString(2) == "2";
    }
    assert CodeOf("AAA", -5) == "PRD-" + "AAA" + "-" + "0-2";
  }

  /** At -5 cents the C++ digits are 0 and -5, and the key of "AAA" is 3. */
  lemma ChecksumAAANegative()
    ensures Checksum("AAA", -5) == -2
  {
    KeyAAA();
    assert CRem(-5, 100) == -5 && CDiv(-5, 10) == 0 && CRem(-5, 10) == -5;
  }

  /** The letters of the prefixes of "T-shirt coton", one character at a time. */
  lemma LettersT()
    ensures Letters("T") == "T"
  {
    assert "T"[..0] == "" && "T"[0] == 'T';
  }

  lemma LettersTDash()
    ensures Letters("T-") == "T"
  {
    LettersT();
    var s := "T-";
    assert s[..1] == "T" && s[1] == '-';
    assert Letters(s) == Letters("T") + [];
  }

  lemma LettersTs()
    ensures Letters("T-s") == "TS"
  {
    LettersTDash();
    var s := "T-s";
    assert s[..2] == "T-" && s[2] == 's';
    assert Letters(s) == Letters("T-") + [ToUpper('s')];
  }

  lemma LettersTsh()
    ensures Letters("T-sh") == "TSH"
  {
    LettersTs();
    var s := "T-sh";
    assert s[..3] == "T-s" && s[3] == 'h';
    assert Letters(s) == Letters("T-s") + [ToUpper('h')];
  }

  lemma LettersTshi()
    ensures Letters("T-shi") == "TSHI"
  {
    LettersTsh();
    var s := "T-shi";
    assert s[..4] == "T-sh" && s[4] == 'i';
    assert Letters(s) == Letters("T-sh") + [ToUpper('i')];
  }

  /** The key of "T-shirt coton" is TSHI, read from its first five characters. */
  lemma KeyTshirt()
    ensures Key("T-shirt coton") == "TSHI"
  {
    LettersTshi();
    var s := "T-shirt coton";
    assert s[..5] == "T-shi";
    KeyAfterScan(s, 5, "TSHI");
  }

  /** The letter values of TSHI add up to 20 + 19 + 8 + 9. */
  lemma SumTshi()
    ensures SumValues("TSHI") == 56
  {
    var k := "TSHI";
    assert k[..0] == [];
    SumValuesStep(k, 0);
    SumValuesStep(k, 1);
    SumValuesStep(k, 2);
    SumValuesStep(k, 3);
    assert k[..4] == k;
  }

  /** The sample line of the catalogue file: "T-shirt coton" at 19.95 has the code
      PRD-TSHI-70 (56 for the letters, 9 + 5 for the cents). */
  lemma CodeOfTshirt()
    ensures CodeOf("T-shirt coton", 1995) == "PRD-TSHI-70"
    ensures ValidCode("PRD-TSHI-70", "T-shirt coton", 1995)
  {
    KeyTshirt();
    SumTshi();
    assert Checksum("T-shirt coton", 1995) == 70;
    CheckDigitsTwoDigits(70);
  }

  /** The same name at 24.50: 56 for the letters, 5 + 0 for the cents. */
  lemma CodeOfTshirt2450()
    ensures CodeOf("T-shirt coton", 2450) == "PRD-TSHI-61"
  {
    KeyTshirt();
    SumTshi();
    assert Checksum("T-shirt coton", 2450) == 61;
    CheckDigitsTwoDigits(61);
  }

  /** The letters of the prefixes of "Smartphone Galaxy", one character at a time. */
  lemma LettersS()
    ensures Letters("S") == "S"
  {
    assert "S"[..0] == "" && "S"[0] == 'S';
  }

  lemma LettersSm()
    ensures Letters("Sm") == "SM"
  {
    LettersS();
    var s := "Sm";
    assert s[..1] == "S" && s[1] == 'm';
    assert Letters(s) == Letters("S") + [ToUpper('m')];
  }

  lemma LettersSma()
    ensures Letters("Sma") == "SMA"
  {
    LettersSm();
    var s := "Sma";
    assert s[..2] == "Sm" && s[2] == 'a';
    assert Letters(s) == Letters("Sm") + [ToUpper('a')];
  }

  lemma LettersSmar()
    ensures Letters("Smar") == "SMAR"
  {
    LettersSma();
    var s := "Smar";
    assert s[..3] == "Sma" && s[3] == 'r';
    assert Letters(s) == Letters("Sma") + [ToUpper('r')];
  }

  /** The key of "Smartphone Galaxy" is SMAR, read from its first four characters. */
  lemma KeySmartphone()
    ensures Key("Smartphone Galaxy") == "SMAR"
  {
    LettersSmar();
    var s := "Smartphone Galaxy";
    assert s[..4] == "Smar";
    KeyAfterScan(s, 4, "SMAR");
  }

  /** The letter values of SMAR add up to 19 + 13 + 1 + 18. */
  lemma SumSmar()
    ensures SumValues("SMAR") == 51
  {
    var k := "SMAR";
    assert k[..0] == [];
    SumValuesStep(k, 0);
    SumValuesStep(k, 1);
    SumValuesStep(k, 2);
    SumValuesStep(k, 3);
    assert k[..4] == k;
  }

  /** The second sample line: "Smartphone Galaxy" at 499.90 has the code PRD-SMAR-60
      (51 for the letters, 9 + 0 for the cents). */
  lemma CodeOfSmartphone()
    ensures CodeOf("Smartphone Galaxy", 49990) == "PRD-SMAR-60"
    ensures ValidCode("PRD-SMAR-60", "Smartphone Galaxy", 49990)
  {
    KeySmartphone();
    SumSmar();
    assert Checksum("Smartphone Galaxy", 49990) == 60;
    CheckDigitsTwoDigits(60);
  }

  /** One more character at the end: the letters grow by it, uppercased, when it is
      a letter. */
  lemma LettersSnoc(t: string, c: char)
    ensures Letters(t + [c]) == Letters(t) + (if IsAlpha(c) then [ToUpper(c)] else [])
  {
    assert (t + [c])[..|t|] == t;
  }

  /** One more character of the name: the letters grow by that character, uppercased,
      when it is a letter. */
  lemma LettersStep(s: string, i: nat)
    requires i < |s|
    ensures Letters(s[..i + 1])
            == Letters(s[..i]) + (if IsAlpha(s[i]) then [ToUpper(s[i])] else [])
  {
    assert s[..i + 1][..i] == s[..i];
  }

  /** One more key letter: the sum grows by its value. */
  lemma SumValuesStep(k: string, j: nat)
    requires j < |k|
    ensures SumValues(k[..j + 1]) == SumValues(k[..j]) + LetterValue(k[j])
  {
    assert k[..j + 1][..j] == k[..j];
  }

  /** The key once the scan of the name has stopped, either at its end or at the
      fourth letter. */
  lemma KeyAfterScan(nom: string, i: nat, name: string)
    requires i <= |nom|
    requires name == Letters(nom[..i])
    requires (i == |nom| && |name| < 4) || |name| == 4
    ensures name == Key(nom)
  {
    if i == |nom| {
      assert nom[..i] == nom;
    } else {
      LettersOfPrefix(nom, i);
    }
  }

  /** The check part appended after the key's dash. */
  lemma CheckPartOfSum(nom: string, totalCents: int, somme: int)
    requires somme == SumValues(Key(nom))
    ensures var cents := CRem(totalCents, 100);
            CRem(somme + CDiv(cents, 10) + CRem(cents, 10), 100) == Checksum(nom, totalCents)
  {
  }

  // ---------------------------------------------------------------------------
  // genererCodeProduit and validerCodeProduit
  // ---------------------------------------------------------------------------

  /** The first loop of genererCodeProduit: scans the name and stops at its fourth
      letter, collecting the letters uppercased. */
  method ExtraireCle(nom: string) returns (name: string)
    ensures name == Key(nom)
  {
    name := "";
    var i := 0;
    while i < |nom|
      invariant 0 <= i <= |nom|
      invariant name == Letters(nom[..i]) && |name| < 4
    {
      var c := nom[i];
      LettersStep(nom, i);
      if IsAlpha(c) {
        name := name + [ToUpper(c)];
        if |name| == 4 {
          i := i + 1;
          break;
        }
      }
      i := i + 1;
    }
    KeyAfterScan(nom, i, name);
  }

  /** The second loop of genererCodeProduit: adds up the letter values of the key. */
  method SommeLettres(name: string) returns (somme: int)
    ensures somme == SumValues(name)
  {
    somme := 0;
    for j := 0 to |name|
      invariant somme == SumValues(name[..j])
    {
      SumValuesStep(name, j);
      somme := somme + (name[j] as int - 64);
    }
    assert name[..|name|] == name;
  }

  /** genererCodeProduit: collects the first four letters of the name (uppercased),
      adds up their values, adds the two digits of the cents and appends the key
      modulo 100, zero-padded below 10. */
  method GenererCodeProduit(nom: string, totalCents: int) returns (code: string)
    ensures code == CodeOf(nom, totalCents)
  {
    code := "PRD-";
    var name := ExtraireCle(nom);
    var somme := SommeLettres(name);

    code := code + name + "-";

    var cents := CRem(totalCents, 100);
    var dizaine := CDiv(cents, 10);
    var unite := CRem(cents, 10);
    CheckPartOfSum(nom, totalCents, somme);
    somme := somme + dizaine + unite;

    var cle := CRem(somme, 100);
    ghost var prefix := code;
    if cle < 10 {
      code := code + "0";
    }
    code := code + IntToString(cle);
    assert code == prefix + CheckDigits(cle);
  }

  /** validerCodeProduit: rejects at once a code whose length is not 11 or which does
      not start with "PRD-", and otherwise compares it with the code recomputed from
      the name and the price. */
  method ValiderCodeProduit(code: string, nom: string, totalCents: int) returns (ok: bool)
    ensures ok == ValidCode(code, nom, totalCents)
  {
    if |code| != 11 || code[..4] != "PRD-" {
      return false;
    }
    var attendu := GenererCodeProduit(nom, totalCents);
    ok := attendu == code;
  }

  // ---------------------------------------------------------------------------
  // validerFormatFichier
  // ---------------------------------------------------------------------------

  /** The three integers `iss >> jj >> mm >> aaaa` reads from the date line. */
  datatype DateFields = DateFields(jj: int, mm: int, aaaa: int)

  /** The library conversions the validator relies on, as parameters: reading three
      integers from a line, `round(std::stod(s) * 100)` (the price in cents) and
      `std::stoi`; `None` stands for a failed read or a thrown exception. */
  datatype Parsers = Parsers(
    readDate: string -> Option<DateFields>,
    priceCents: string -> Option<int>,
    stoi: string -> Option<int>)

  /** The size tokens accepted for clothing. */
  predicate EstTailleStandard(t: string) {
    t == "XS" || t == "S" || t == "M" || t == "L" || t == "XL" || t == "XXL"
  }

  /** Line 2: three integers, a day in 1..31, a month in 1..12 and a year of at least 1. */
  predicate DateLineOk(ligne: string, parsers: Parsers) {
    match parsers.readDate(ligne)
    case None => false
    case Some(d) => !(d.jj <= 0 || d.mm <= 0 || d.aaaa <= 0 || d.mm > 12 || d.jj > 31)
  }

  /** The comma-separated fields of a product line, each trimmed. */
  function Champs(ligne: string): (r: seq<string>)
    ensures |r| == |GetlineFields(ligne, ',')|
    ensures forall k :: 0 <= k < |r| ==> r[k] == Trim(GetlineFields(ligne, ',')[k])
  {
    var f := GetlineFields(ligne, ',');
    seq(|f|, k requires 0 <= k < |f| => Trim(f[k]))
  }

  /** The price field with every ',' turned into '.', as the validator does before
      converting it. */
  function VirguleEnPoint(s: string): (r: string)
    ensures |r| == |s| && ',' !in r
    ensures forall k :: 0 <= k < |s| && s[k] != ',' ==> r[k] == s[k]
    ensures forall k :: 0 <= k < |s| && s[k] == ',' ==> r[k] == '.'
  {
    seq(|s|, k requires 0 <= k < |s| => if s[k] == ',' then '.' else s[k])
  }

  /** No field of a product line contains ',': `getline` has already cut the line at
      every comma, and trimming adds no character. */
  lemma ChampsHaveNoComma(ligne: string)
    ensures forall k :: 0 <= k < |Champs(ligne)| ==> ',' !in Champs(ligne)[k]
  {
    var f := GetlineFields(ligne, ',');
    forall k | 0 <= k < |f| ensures ',' !in Trim(f[k]) {
      TrimKeeps(f[k], ',');
    }
  }

  /** Hence the comma replacement never changes a field. A price written "19,95" is
      cut into the two fields "19" and "95" before it gets there, so a decimal comma
      is never read as one. */
  lemma VirguleEnPointInert(ligne: string)
    ensures forall k :: 0 <= k < |Champs(ligne)| ==> VirguleEnPoint(Champs(ligne)[k]) == Champs(ligne)[k]
  {
    ChampsHaveNoComma(ligne);
    forall k | 0 <= k < |Champs(ligne)| ensures VirguleEnPoint(Champs(ligne)[k]) == Champs(ligne)[k] {
      var c := Champs(ligne)[k];
      assert forall j :: 0 <= j < |c| ==> VirguleEnPoint(c)[j] == c[j];
    }
  }

  /** The clothing fields: the size, uppercased, is a standard size and the colour is
      not empty. */
  predicate VetementChampsOk(taille: string, couleur: string) {
    EstTailleStandard(UpperAll(Trim(taille))) && Trim(couleur) != []
  }

  /** The electronics fields: both convert to integers, the warranty is at least zero
      and the refurbished flag is 0 or 1. */
  predicate ElectroniqueChampsOk(garantie: string, recond: string, parsers: Parsers) {
    match (parsers.stoi(garantie), parsers.stoi(recond))
    case (Some(g), Some(r)) => !(g < 0 || (r != 0 && r != 1))
    case _ => false
  }

  /** The six trimmed fields of a product line pass: a known type tag, a price that
      converts, a code valid for the name and the price, and valid type fields. */
  predicate ChampsOk(champs: seq<string>, parsers: Parsers)
    requires |champs| == 6
  {
    && (champs[0] == "Electronique" || champs[0] == "Vetement")
    && match parsers.priceCents(VirguleEnPoint(champs[2]))
       case None => false
       case Some(prix) =>
         && ValidCode(champs[3], champs[1], prix)
         && (if champs[0] == "Vetement" then VetementChampsOk(champs[4], champs[5])
             else ElectroniqueChampsOk(champs[4], champs[5], parsers))
  }

  /** A product line (line 3 onward): exactly six fields, and they pass. */
  predicate ProductLineOk(ligne: string, parsers: Parsers) {
    var champs := Champs(ligne);
    |champs| == 6 && ChampsOk(champs, parsers)
  }

  /** Line number `numLigne` (from 1) passes: not empty once trimmed; line 1 holds a
      non-space character, line 2 a date, every later line a product. */
  predicate LineOk(numLigne: nat, ligne: string, parsers: Parsers) {
    var l := Trim(ligne);
    && l != []
    && (if numLigne == 1 then !AllSpace(l)
        else if numLigne == 2 then DateLineOk(l, parsers)
        else ProductLineOk(l, parsers))
  }

  /** The line at index `i` passes under its line number `i + 1`. */
  predicate LineAtOk(lignes: seq<string>, i: nat, parsers: Parsers)
    requires i < |lignes|
  {
    LineOk(i + 1, lignes[i], parsers)
  }

  /** What validerFormatFichier answers: the stream is usable and every line passes. */
  predicate FileFormatOk(good: bool, lignes: seq<string>, parsers: Parsers) {
    good && forall i :: 0 <= i < |lignes| ==> LineAtOk(lignes, i, parsers)
  }

  /** The clothing branch: trims both fields, uppercases the size in place, then
      checks the size against the standard sizes and the colour for emptiness. */
  method ValiderChampsVetement(taille: string, couleur: string) returns (ok: bool)
    ensures ok == VetementChampsOk(taille, couleur)
  {
    var attr1 := Trim(taille);
    var attr2 := Trim(couleur);
    ghost var t := attr1;
    var k := 0;
    while k < |attr1|
      invariant 0 <= k <= |attr1| == |t|
      invariant forall j :: 0 <= j < k ==> attr1[j] == ToUpper(t[j])
      invariant forall j :: k <= j < |attr1| ==> attr1[j] == t[j]
    {
      attr1 := attr1[k := ToUpper(attr1[k])];
      k := k + 1;
    }
    assert attr1 == UpperAll(t);
    if !EstTailleStandard(attr1) {
      return false;
    }
    if attr2 == [] {
      return false;
    }
    return true;
  }

  /** The electronics branch: converts both fields, then checks the warranty and the
      refurbished flag. */
  method ValiderChampsElectronique(garantieStr: string, recondStr: string, parsers: Parsers)
    returns (ok: bool)
    ensures ok == ElectroniqueChampsOk(garantieStr, recondStr, parsers)
  {
    var garantie := parsers.stoi(garantieStr);
    var recond := parsers.stoi(recondStr);
    if garantie.None? || recond.None? {
      return false;
    }
    if garantie.value < 0 || (recond.value != 0 && recond.value != 1) {
      return false;
    }
    return true;
  }

  /** The checks of six trimmed fields, in the order the validator makes them. */
  method ValiderChamps(champs: seq<string>, parsers: Parsers) returns (ok: bool)
    requires |champs| == 6
    ensures ok == ChampsOk(champs, parsers)
  {
    var typeProduit, nom, prixStr, codeProduit := champs[0], champs[1], champs[2], champs[3];
    var attr1, attr2 := champs[4], champs[5];

    if typeProduit != "Electronique" && typeProduit != "Vetement" {
      return false;
    }
    var prix := parsers.priceCents(VirguleEnPoint(prixStr));
    if prix.None? {
      return false;
    }
    var codeOk := ValiderCodeProduit(codeProduit, nom, prix.value);
    if !codeOk {
      return false;
    }
    if typeProduit == "Vetement" {
      ok := ValiderChampsVetement(attr1, attr2);
    } else {
      ok := ValiderChampsElectronique(attr1, attr2, parsers);
    }
  }

  /** Reads the comma-separated fields of a product line, trimming each one and keeping
      the first six in a fixed array while counting them all. */
  method LireChamps(ligne: string) returns (champs: seq<string>, count: nat)
    ensures count == |Champs(ligne)|
    ensures count == 6 ==> champs == Champs(ligne)
  {
    var morceaux := GetlineFields(ligne, ',');
    ghost var attendus := Champs(ligne);
    var tableau := new string[6];
    count := 0;
    while count < |morceaux|
      invariant 0 <= count <= |morceaux| == |attendus|
      invariant forall k :: 0 <= k < count && k < 6 ==> tableau[k] == attendus[k]
    {
      var champ := Trim(morceaux[count]);
      assert champ == attendus[count];
      if count < 6 {
        tableau[count] := champ;
      }
      count := count + 1;
    }
    champs := tableau[..];
  }

  /** A product line: exactly six fields, checked in order. */
  method ValiderLigneProduit(ligne: string, parsers: Parsers) returns (ok: bool)
    ensures ok == ProductLineOk(ligne, parsers)
  {
    var champs, count := LireChamps(ligne);
    if count != 6 {
      return false;
    }
    ok := ValiderChamps(champs, parsers);
  }

  /** One line of the file, numbered from 1. */
  method ValiderLigne(numLigne: nat, ligne: string, parsers: Parsers) returns (ok: bool)
    ensures ok == LineOk(numLigne, ligne, parsers)
  {
    var l := Trim(ligne);
    if l == [] {
      return false;
    }
    if numLigne == 1 {
      ok := !AllSpace(l);
    } else if numLigne == 2 {
      var d := parsers.readDate(l);
      if d.None? {
        return false;
      }
      var jj, mm, aaaa := d.value.jj, d.value.mm, d.value.aaaa;
      ok := !(jj <= 0 || mm <= 0 || aaaa <= 0 || mm > 12 || jj > 31);
    } else {
      ok := ValiderLigneProduit(l, parsers);
    }
  }

  /** One more passing line extends a passing prefix. */
  lemma LinesOkExtend(lignes: seq<string>, n: nat, parsers: Parsers)
    requires n < |lignes|
    requires forall i :: 0 <= i < n ==> LineAtOk(lignes, i, parsers)
    requires LineAtOk(lignes, n, parsers)
    ensures forall i :: 0 <= i < n + 1 ==> LineAtOk(lignes, i, parsers)
  {
  }

  /** validerFormatFichier: reads the lines one by one, numbering them from 1, and
      stops at the first line that fails. */
  method ValiderFormatFichier(good: bool, lignes: seq<string>, parsers: Parsers)
    returns (valide: bool)
    ensures valide == FileFormatOk(good, lignes, parsers)
  {
    if !good {
      return false;
    }
    var numLigne := 0;
    while numLigne < |lignes|
      invariant 0 <= numLigne <= |lignes|
      invariant forall i :: 0 <= i < numLigne ==> LineAtOk(lignes, i, parsers)
    {
      var ok := ValiderLigne(numLigne + 1, lignes[numLigne], parsers);
      if !ok {
        assert !LineAtOk(lignes, numLigne, parsers);
        return false;
      }
      assert LineAtOk(lignes, numLigne, parsers);
      LinesOkExtend(lignes, numLigne, parsers);
      numLigne := numLigne + 1;
    }
    return true;
  }

  // ---------------------------------------------------------------------------
  // Properties of the file format
  // ---------------------------------------------------------------------------

  /** The header check is implied by the emptiness check: line 1 passes exactly when
      it holds a character other than whitespace. */
  lemma HeaderLineOk(ligne: string, parsers: Parsers)
    ensures LineOk(1, ligne, parsers) <==> !AllSpace(ligne)
  {
    var l := Trim(ligne);
    if l != [] {
      assert !IsSpace(l[0]);
    }
  }

  /** Fields written with commas between them are read back as they were, provided none
      holds a comma, none has whitespace at its ends and the last one is not empty. */
  lemma ChampsOfJoin(fields: seq<string>)
    requires |fields| >= 1 && fields[|fields| - 1] != []
    requires forall k :: 0 <= k < |fields| ==> ',' !in fields[k] && Trimmed(fields[k])
    ensures Champs(Join(fields, ',')) == fields
  {
    GetlineOfJoin(fields, ',');
    var c := Champs(Join(fields, ','));
    forall k | 0 <= k < |fields|
      ensures c[k] == fields[k]
    {
      TrimFixed(fields[k]);
    }
  }

  /** A product line written from six fields passes exactly when the fields do. */
  lemma ProductLineOfFields(fields: seq<string>, parsers: Parsers)
    requires |fields| == 6 && fields[5] != []
    requires forall k :: 0 <= k < 6 ==> ',' !in fields[k] && Trimmed(fields[k])
    ensures ProductLineOk(Join(fields, ','), parsers) <==> ChampsOk(fields, parsers)
  {
    ChampsOfJoin(fields);
  }

  /** A comma at the end of a line adds no field: the read that would return the empty
      field after it fails, so "…,Blanc," reads like "…,Blanc". */
  lemma TrailingCommaIgnored(ligne: string)
    requires ligne != [] && ligne[|ligne| - 1] != ','
    ensures GetlineFields(ligne + [','], ',') == GetlineFields(ligne, ',')
  {
    SplitOnSnocSep(ligne, ',');
    SplitOnLastEmpty(ligne, ',');
    var f := SplitOn(ligne, ',');
    assert (f + [[]])[..|f|] == f;
  }

  /** Validation stops at the first rejected line: if any line fails, the file fails. */
  lemma OneBadLineRejects(good: bool, lignes: seq<string>, parsers: Parsers, i: nat)
    requires i < |lignes| && !LineOk(i + 1, lignes[i], parsers)
    ensures !FileFormatOk(good, lignes, parsers)
  {
    assert !LineAtOk(lignes, i, parsers);
  }

  /** A valid file stays valid when lines are taken off its end. */
  lemma {:induction false} PrefixOfValidFile(good: bool, lignes: seq<string>, parsers: Parsers, n: nat)
    requires n <= |lignes| && FileFormatOk(good, lignes, parsers)
    ensures FileFormatOk(good, lignes[..n], parsers)
  {
    forall i | 0 <= i < n
      ensures LineAtOk(lignes[..n], i, parsers)
    {
      assert LineAtOk(lignes, i, parsers);
      assert lignes[..n][i] == lignes[i];
    }
  }
}
