# Product catalogue: codes, products and the catalogue, in Dafny

A model of the domain layer of a small product-management application
(namespaces `util` and `commerce`).

- **Product codes** (`validationFormat.cpp`). `genererCodeProduit` builds a code of
  the form `PRD-<key>-<NN>` from a name and a price. `validerCodeProduit` checks a
  code against a name and a price.
- **Catalogue file** (`validationFormat.cpp`). `validerFormatFichier` validates the
  flat file line by line:
  - line 1 is a header;
  - line 2 is a date;
  - every later line is a product, given as six comma-separated fields.
- **Products** (`Produit.cpp`, `Electronique.cpp`, `Vetement.cpp`). Every product has
  a description, a price and a code. An electronics product adds a warranty and a
  refurbished flag; a clothing product adds a size and a colour. The files cover
  construction, `asgPrix`, equality, `clone` and the text rendering.
- **Catalogue** (`Catalogue.cpp`). A name, the date of the last update and an ordered
  list of products, with insertion, removal, deep copy and text rendering.

Modules, one file each:

| file | module | models |
|---|---|---|
| `wrappers.dfy` | `Wrappers` | `Option` (a conversion that fails) and `Outcome` (an operation that throws) |
| `text.dfy` | `Text` | the library string operations the core relies on: C-locale `isalpha`/`toupper`, the `trim` lambda, `std::getline` on a delimiter, `std::to_string` |
| `validation_format.dfy` | `ValidationFormat` | code generation and validation; the file validator |
| `produits.dfy` | `Produits` | the product records, their constructors, `asgPrix`, `operator==`, `clone`, `reqProduitFormate` |
| `catalogue.dfy` | `Catalogues` | the `Catalogue` class |

How the source is represented:

- **Prices.** A price is the integer `totalCents`, the value the source computes as
  `round(prix * 100)`.
- **C++ arithmetic.** `%` and `/` truncate toward zero in C++. They are written out as
  `CRem` and `CDiv`, so that negative prices, which the file validator can pass on,
  behave as in C++.
- **Code generation.** Both code functions scan the name and add up letter values
  in loops. In the model these loops are `ExtraireCle` and `SommeLettres`, proved
  equal to the specification functions `Key` and `SumValues`. `GenererCodeProduit`
  calls them, then builds the code by successive appends; it is proved equal to
  `CodeOf`.
- **The file validator.** It is a loop over the lines, with an early exit on the first
  failing line. Fields are collected into a fixed array of six and the size is
  uppercased in place. Its answer is proved equal to the predicate `FileFormatOk`.
- **Products** are values of one datatype. The C++ hierarchy is closed, so `clone` is
  a copy of the value and virtual dispatch is a `match`.
- **asgPrix** is a method that returns the updated product.
- **The catalogue** is a class with a `seq<Product>` field. Its methods state the
  whole new state.

Behaviour of the source worth knowing, all proved below:

- **Short codes.** A name with fewer than four letters gives a code shorter than 11
  characters for any price of at least zero, so its code never validates
  (`RoundTrip`). Conversely, a code that validates at such a price implies four
  letters (`ValidCodeHasFourLetters`). This is what keeps the code valid after
  `asgPrix`.
- **Negative prices.** With a negative price the C++ remainder is negative, the check
  part can take three or four characters, and an 11-character code can validate with
  a three-letter key: `("PRD-AAA-0-2", "AAA", -5 cents)`
  (`NegativePriceShortKeyValidates`). The product constructors require a price of at
  least zero, so no product ever holds such a code. The file validator, however, does
  not reject a negative price.
- **Trailing comma.** A comma at the end of a product line adds no field, because the
  `getline` that would read the empty field after it fails (`TrailingCommaIgnored`).
- **Decimal commas.** The validator turns ',' into '.' in the price before converting
  it, but the line has already been cut at every comma. No field holds a comma, so the
  replacement never changes anything (`ChampsHaveNoComma`, `VirguleEnPointInert`):
  a price written `19,95` is cut into two fields at its comma, so a decimal comma is
  never read as one.
- **Lowercase sizes.** The file validator uppercases the size before checking it,
  while the `Vetement` constructor compares it exactly. A line with the size `m`
  passes the file check, but `m` is not a size the constructor admits
  (`LowercaseSizeOnlyPassesFileCheck`).
- **Empty colour.** The `Vetement` constructor does not check the colour, so an empty
  colour is accepted (`EmptyColourAccepted`).
- **Catalogue invariant.** `verifieInvariant` of the catalogue checks only the name.
  `Catalogue.Valid()` also states that the codes are pairwise distinct, which follows
  from the check in `ajouterProduit`, and that every product satisfies its own
  invariant. Every method keeps `Valid()`.

## Model

| member | source | states |
|---|---|---|
| Text.IsAlpha | TP3Sources/validationFormat.cpp:191 | `isalpha` in the C locale: exactly the ASCII letters A-Z and a-z |
| Text.ToUpper | TP3Sources/validationFormat.cpp:193 | `toupper` in the C locale: the result is an uppercase ASCII letter exactly when the input is a letter; lowercase letters move up by 32 and every other character is unchanged |
| Text.UpperAll | TP3Sources/validationFormat.cpp:151 | the in-place uppercasing of the size: same length, `toupper` at every position |
| Text.IsSpace | TP3Sources/validationFormat.cpp:69-70 | the characters `trim` strips and line 1 must not consist of: space, tab, carriage return and newline |
| Text.AllSpace | TP3Sources/validationFormat.cpp:88 | a string has no character outside `" \t\r\n"`, which is when `find_first_not_of` gives `npos` |
| Text.TrimRight | TP3Sources/validationFormat.cpp:70-74 | what is kept is a prefix of the input, what is dropped is all whitespace, and the last character kept is not whitespace |
| Text.Trim | TP3Sources/validationFormat.cpp:68-76 | the `trim` lambda: never longer, neither end is one of `" \t\r\n"`, and the result is empty exactly when the input is all whitespace; `TrimIsInfix` adds that it is the slice between the leading and the trailing whitespace |
| Text.TrimFixed | TP3Sources/validationFormat.cpp:68-76 | a string with no whitespace at either end is left unchanged |
| Text.TrimKeeps | TP3Sources/validationFormat.cpp:68-76 | trimming introduces no character that was not in the input |
| Text.TrimIdempotent | TP3Sources/validationFormat.cpp:68-76 | trimming twice is trimming once |
| Text.TrimIsInfix | TP3Sources/validationFormat.cpp:68-76 | what `trim` keeps is `substr(first, last - first + 1)`: a slice of the input with only whitespace before it and only whitespace after it |
| Text.SplitOn | TP3Sources/validationFormat.cpp:111-115 | splitting at a delimiter gives at least one field, no field holds the delimiter, and joining the fields back with it gives the input |
| Text.SplitJoin | TP3Sources/validationFormat.cpp:111-115 | splitting is the inverse of joining fields that do not hold the delimiter |
| Text.GetlineFields | TP3Sources/validationFormat.cpp:111-115 | the fields `getline(ss, champ, ',')` reads: no field holds a comma, none are read from an empty line, and joined back they give the line, counting one empty field after a trailing comma |
| Text.GetlineOfJoin | TP3Sources/validationFormat.cpp:111-115 | fields without commas, the last one non-empty, are read back exactly as written |
| Text.NatToString | TP3Sources/validationFormat.cpp:225 | `to_string` of a natural number: only digits; one digit below 10, two digits from 10 to 99; its value is stated by `NatToStringValue` |
| Text.NatToStringValue | TP3Sources/validationFormat.cpp:225 | the digits `to_string` writes denote the number (`DecimalValue`), and the first digit is '0' only for zero |
| Text.IntToString | TP3Sources/validationFormat.cpp:225 | `to_string` of an int: starts with '-' exactly for a negative number, and holds only digits and that sign; its value is stated by `IntToStringValue` |
| Text.IntToStringValue | TP3Sources/validationFormat.cpp:225 | for a non-negative int the digits denote it; for a negative one the '-' is followed by `NatToString` of its absolute value; the first digit is '0' only for zero, so no leading zero |
| ValidationFormat.Letters | TP3Sources/validationFormat.cpp:189-199 | the letters of the name, uppercased and in order: all in A-Z and never more than the name's length |
| ValidationFormat.Key | TP3Sources/validationFormat.cpp:189-199 | the key has at most 4 characters and is a prefix of the name's letters; it has exactly 4 iff the name has at least 4 letters, and otherwise it is all of them |
| ValidationFormat.LetterValue | TP3Sources/validationFormat.cpp:204 | a letter is worth its character code minus 64, so 'A' is 1 and 'Z' is 26 |
| ValidationFormat.SumValues | TP3Sources/validationFormat.cpp:202-206 | for an uppercase key (A=1 .. Z=26) the sum lies between the key's length and 26 times it |
| ValidationFormat.CRem | TP3Sources/validationFormat.cpp:212 | C++ `%` by a positive divisor: strictly between minus and plus the divisor, Dafny's `%` for a non-negative dividend, never positive for a non-positive one |
| ValidationFormat.CDiv | TP3Sources/validationFormat.cpp:213 | C++ `/` by a positive divisor: quotient times divisor plus `CRem` gives back the dividend; the quotient has the dividend's sign |
| ValidationFormat.Checksum | TP3Sources/validationFormat.cpp:211-219 | the control key `cle` lies in -18..99, and in 0..99 for a price of at least zero |
| ValidationFormat.CodeOf | TP3Sources/validationFormat.cpp:182-228 | the reference definition of the generated code: "PRD-", the key, '-', then the check part (a '0' before a key below 10, then `to_string` of the key) |
| ValidationFormat.ValidCode | TP3Sources/validationFormat.cpp:12-53 | the reference definition of what validerCodeProduit accepts: 11 characters, the "PRD-" prefix, and equal to the generated code |
| ValidationFormat.LettersOfPrefix | TP3Sources/validationFormat.cpp:189-199 | the letters of a prefix of the name are a prefix of its letters, which is why stopping the scan at the fourth letter is correct |
| ValidationFormat.CheckDigits | TP3Sources/validationFormat.cpp:221-225 | the check part of a code: a "0" in front when the key is below 10, then `to_string(cle)` |
| ValidationFormat.CheckDigitsTwoDigits | TP3Sources/validationFormat.cpp:221-225 | for a key in 0..99 the check part is exactly two digits, the tens and the units, zero-padded below 10 |
| ValidationFormat.CheckDigitsValue | TP3Sources/validationFormat.cpp:219-225 | for a key in 0..99 the two digits of the check part, read as a decimal number, give back the key |
| ValidationFormat.CheckDigitsLength | TP3Sources/validationFormat.cpp:219-225 | the check part has 2 characters for a key in 0..99, 3 for -9..-1 and 4 for -18..-10 |
| ValidationFormat.CodeShape | TP3Sources/validationFormat.cpp:184-227 | a generated code is "PRD-", the key, '-' and the check part; for a price of at least zero its length is 7 + the key's length, at most 11, and exactly 11 iff the name has at least four letters |
| ValidationFormat.ChecksumFormula | TP3Sources/validationFormat.cpp:202-219 | for a price of at least zero, each key letter is worth 1..26 and the key is (sum of letter values + tens digit of the cents + units digit of the price) mod 100 |
| ValidationFormat.KeyLetterValues | TP3Sources/validationFormat.cpp:202-205 | every letter of a key is worth 1 to 26 |
| ValidationFormat.CodeDependsOnCentsOnly | TP3Sources/validationFormat.cpp:211-216 | two prices with the same C++ remainder mod 100 give the same code |
| ValidationFormat.ValidCodeIff | TP3Sources/validationFormat.cpp:12-53 | a code validates iff it equals the generated code and that code is 11 characters long; a code of another length or without the "PRD-" prefix never validates |
| ValidationFormat.RoundTrip | TP3Sources/validationFormat.cpp:14-27 | for a price of at least zero, the generated code validates iff the name has at least four letters |
| ValidationFormat.ValidCodeHasFourLetters | TP3Sources/validationFormat.cpp:14-27 | for a price of at least zero, a code that validates implies a name with at least four letters, hence a non-empty name |
| ValidationFormat.NegativePriceShortKeyValidates | TP3Sources/validationFormat.cpp:38-50 | at -5 cents the 11-character code "PRD-AAA-0-2" validates for "AAA", a name with only three letters |
| ValidationFormat.KeyTshirt | TP3Principal/gestionCatalogue.cpp:46 | the key of "T-shirt coton" is TSHI |
| ValidationFormat.CodeOfTshirt | TP3Principal/gestionCatalogue.cpp:46 | "T-shirt coton" at 19.95 has the code PRD-TSHI-70, and that code validates |
| ValidationFormat.CodeOfTshirt2450 | TP3Sources/tests/ProduitTesteur.cpp:137-148 | "T-shirt coton" at 24.50 has the code PRD-TSHI-61 |
| ValidationFormat.KeySmartphone | TP3Principal/gestionCatalogue.cpp:45 | the key of "Smartphone Galaxy" is SMAR |
| ValidationFormat.CodeOfSmartphone | TP3Principal/gestionCatalogue.cpp:45 | "Smartphone Galaxy" at 499.90 has the code PRD-SMAR-60, and that code validates |
| ValidationFormat.ExtraireCle | TP3Sources/validationFormat.cpp:189-199 | the loop that collects the letters and stops at the fourth one returns the key |
| ValidationFormat.SommeLettres | TP3Sources/validationFormat.cpp:202-206 | the loop that adds `c - 64` over the key returns the sum of its letter values |
| ValidationFormat.GenererCodeProduit | TP3Sources/validationFormat.cpp:182-228 | `genererCodeProduit`, built by successive appends, returns `CodeOf(name, totalCents)` |
| ValidationFormat.ValiderCodeProduit | TP3Sources/validationFormat.cpp:12-53 | `validerCodeProduit`, with its early length and prefix check, answers `ValidCode` |
| ValidationFormat.Champs | TP3Sources/validationFormat.cpp:106-115 | the fields of a product line: one per comma-separated field read, each trimmed |
| ValidationFormat.VirguleEnPoint | TP3Sources/validationFormat.cpp:136 | the price field with every ',' replaced by '.': same length, no comma left, every other character unchanged |
| ValidationFormat.ChampsHaveNoComma | TP3Sources/validationFormat.cpp:111-112 | no field of a product line contains ',': `getline` cuts the line at every comma and `trim` adds no character |
| ValidationFormat.VirguleEnPointInert | TP3Sources/validationFormat.cpp:111-136 | the comma replacement leaves every field of a product line unchanged, so a decimal comma never reaches it |
| ValidationFormat.EstTailleStandard | TP3Sources/validationFormat.cpp:153-154 | the size list of the file check: XS, S, M, L, XL or XXL, spelled exactly |
| ValidationFormat.VetementChampsOk | TP3Sources/validationFormat.cpp:148-162 | the clothing fields pass: the trimmed size, uppercased, is a standard size, and the trimmed colour is not empty |
| ValidationFormat.ElectroniqueChampsOk | TP3Sources/validationFormat.cpp:163-176 | the electronics fields pass: both convert with `stoi`, the warranty is at least zero and the refurbished flag is 0 or 1 |
| ValidationFormat.DateLineOk | TP3Sources/validationFormat.cpp:93-104 | the date rule: three integers are read, with a day in 1..31, a month in 1..12 and a year of at least 1 |
| ValidationFormat.ChampsOk | TP3Sources/validationFormat.cpp:122-176 | the rule for six fields: type tag Electronique or Vetement; the price converts after ',' becomes '.'; the code is valid for the name and price; then the clothing or electronics fields pass |
| ValidationFormat.ProductLineOk | TP3Sources/validationFormat.cpp:105-177 | the rule for a product line: exactly six trimmed fields, and they pass `ChampsOk` |
| ValidationFormat.LineOk | TP3Sources/validationFormat.cpp:80-177 | the rule for line n: not empty once trimmed; then line 1 holds a non-space character, line 2 passes `DateLineOk`, any later line passes `ProductLineOk` |
| ValidationFormat.FileFormatOk | TP3Sources/validationFormat.cpp:57-181 | the rule for a file: the stream is good and every line passes `LineOk` under its number from 1 |
| ValidationFormat.ValiderChampsVetement | TP3Sources/validationFormat.cpp:148-162 | the clothing branch (trim, uppercase the size in place, check size and colour) answers `VetementChampsOk`: a standard size once uppercased and a non-empty colour |
| ValidationFormat.ValiderChampsElectronique | TP3Sources/validationFormat.cpp:163-176 | the electronics branch answers `ElectroniqueChampsOk`: both fields convert, the warranty is at least zero and the flag is 0 or 1 |
| ValidationFormat.ValiderChamps | TP3Sources/validationFormat.cpp:122-176 | the checks on six fields, in order, answer `ChampsOk`: type tag Electronique or Vetement, a price that converts after ',' becomes '.', a valid code, then the type's own fields |
| ValidationFormat.LireChamps | TP3Sources/validationFormat.cpp:106-115 | the getline loop into the fixed array of six counts every field, and when there are exactly six the array holds them |
| ValidationFormat.ValiderLigneProduit | TP3Sources/validationFormat.cpp:105-177 | a product line passes iff it has exactly six fields and they pass (`ProductLineOk`) |
| ValidationFormat.ValiderLigne | TP3Sources/validationFormat.cpp:79-177 | line n passes iff it is non-empty once trimmed and: line 1 holds a non-space character; line 2 reads three integers with 1<=jj<=31, 1<=mm<=12, aaaa>=1; any later line is a passing product line (`LineOk`) |
| ValidationFormat.ValiderFormatFichier | TP3Sources/validationFormat.cpp:57-181 | `validerFormatFichier` answers true iff the stream is good and every line passes under its number from 1 (`FileFormatOk`); zero lines give true |
| ValidationFormat.HeaderLineOk | TP3Sources/validationFormat.cpp:80-92 | line 1 passes iff it holds a character other than whitespace: the header check adds nothing to the emptiness check |
| ValidationFormat.ChampsOfJoin | TP3Sources/validationFormat.cpp:106-115 | fields written with commas between them, none holding a comma or surrounding whitespace and the last non-empty, are read back as written |
| ValidationFormat.ProductLineOfFields | TP3Sources/validationFormat.cpp:105-177 | a product line written from six such fields passes iff the fields pass |
| ValidationFormat.TrailingCommaIgnored | TP3Sources/validationFormat.cpp:111-115 | one comma added at the end of a line that does not already end with one leaves the fields read unchanged |
| ValidationFormat.OneBadLineRejects | TP3Sources/validationFormat.cpp:78-85 | a single failing line makes the whole file fail |
| ValidationFormat.PrefixOfValidFile | TP3Sources/validationFormat.cpp:78-180 | a valid file stays valid when lines are removed from its end |
| Produits.NewProduit | TP3Sources/Produit.cpp:34-47 | the constructor requires a non-empty description, a price of at least zero and a code valid for both; it stores exactly the arguments and the invariant holds |
| Produits.NewElectronique | TP3Sources/Electronique.cpp:34-40 | also requires a warranty of at least zero; it stores the base, warranty and flag given, and the invariant holds |
| Produits.NewVetement | TP3Sources/Vetement.cpp:36-46 | also requires a size spelled exactly XS, S, M, L, XL or XXL; it stores the size and colour given, and the invariant holds |
| Produits.ProduitInvariant | TP3Sources/Produit.cpp:150-155 | Produit's invariant: a non-empty description, a price of at least zero and a code valid for both |
| Produits.ProductInvariant | TP3Sources/Electronique.cpp:131-133 | each kind's invariant: the base invariant, plus a warranty of at least zero for electronics or a standard size for clothing (Vetement.cpp:113-116) |
| Produits.InvariantMeansConstructible | TP3Sources/Produit.cpp:150-155 | every product satisfying `verifieInvariant` of its class is what its constructor builds from its own fields |
| Produits.EmptyColourAccepted | TP3Sources/Vetement.cpp:39-43 | the constructor accepts an empty colour: only the size is checked |
| Produits.WithPrix | TP3Sources/Produit.cpp:103-105 | the product `asgPrix` leaves: the new price, the code generated from the unchanged description at that price, every other field as before |
| Produits.AsgPrix | TP3Sources/Produit.cpp:100-112 | `asgPrix` sets the price, regenerates the code from the unchanged description, and the code validates and the invariant holds afterwards |
| Produits.AsgPrixKeepsInvariant | TP3Sources/Produit.cpp:107-110 | the code regenerated at any new price of at least zero validates and the invariant is kept, because the old valid code forces four letters in the description |
| Produits.AsgPrixFrame | TP3Sources/Produit.cpp:100-106 | `asgPrix` keeps the kind, the description, the warranty and flag, and the size and colour |
| Produits.AsgPrixLastWins | TP3Sources/Produit.cpp:103-105 | two price assignments in a row equal the last one alone; assigning the current price to a valid product changes nothing |
| Produits.AsgPrixSameCentsSameCode | TP3Sources/Produit.cpp:105 | a new price with the same cents part keeps the code |
| Produits.AsgPrixTshirt | TP3Sources/tests/ProduitTesteur.cpp:137-148 | "T-shirt coton" at 19.95 carries PRD-TSHI-70 and gets PRD-TSHI-61 at 24.50 |
| Produits.ProduitEgal | TP3Sources/Produit.cpp:124-128 | `Produit::operator==` holds iff description, price and code are equal |
| Produits.ElectroniqueEgal | TP3Sources/Electronique.cpp:74-78 | `Electronique::operator==` holds iff the base fields, the warranty and the flag are equal |
| Produits.VetementEgal | TP3Sources/Vetement.cpp:73-76 | `Vetement::operator==` holds iff the base fields, the size and the colour are equal |
| Produits.Clone | TP3Sources/Electronique.cpp:92-95 | `clone` keeps the dynamic kind and compares equal to the original (the same holds for `Vetement::clone` at Vetement.cpp:100-103) |
| Produits.CloneThenAsgPrix | TP3Sources/tests/ElectroniqueTesteur.cpp:133-147 | after clone then `asgPrix` on the original, the copy keeps the old base fields while the original carries the new price and its regenerated code |
| Produits.Separateur | TP3Sources/Electronique.cpp:110 | the dashed line both concrete kinds print first, the same in Vetement.cpp:87 |
| Produits.ProduitFormate | TP3Sources/Produit.cpp:134-141 | `Produit::reqProduitFormate`: the description, the price text and the code on three lines, with no newline after the code |
| Produits.ElectroniqueFormate | TP3Sources/Electronique.cpp:108-118 | `Electronique::reqProduitFormate`: the separator, "Produit Electronique", the base text, "Garantie : N mois", "Reconditionné : Oui/Non", each ended by a newline |
| Produits.VetementFormate | TP3Sources/Vetement.cpp:85-93 | `Vetement::reqProduitFormate`: the separator, "Produit Vetement", the base text, "Taille : t", "Couleur : c", each ended by a newline |
| Produits.ProductText | TP3Sources/Catalogue.cpp:195 | the virtual `reqProduitFormate`, dispatched on the product's kind |
| Produits.ProduitFormateIsJoin | TP3Sources/Produit.cpp:134-141 | `Produit::reqProduitFormate` is the description, the price text and the code joined by newlines, with no newline after the code |
| Produits.ProductTextIsJoin | TP3Sources/Electronique.cpp:108-118 | a product's text is its lines joined by newlines, each line ended by one: separator, heading, the three base lines, then warranty and refurbished lines (size and colour lines for clothing, Vetement.cpp:85-93) |
| Produits.NoNewlineInCode | TP3Sources/validationFormat.cpp:182-228 | a generated code holds no line break |
| Produits.ProductTextLines | TP3Sources/Vetement.cpp:85-93 | reading a product's text back line by line gives its lines, when the description, the price text and the colour hold no line break |
| Produits.AcceptedFieldsMeetConstructors | TP3Sources/validationFormat.cpp:143-176 | the fields of an accepted product line with a price of at least zero satisfy the constructor's requirements on description, code and warranty, and the size is standard once uppercased |
| Produits.LowercaseSizeOnlyPassesFileCheck | TP3Sources/Vetement.cpp:39-40 | the size "m" passes the file check but not the constructor's exact check |
| Catalogues.HasCode | TP3Sources/Catalogue.cpp:212-220 | some product in the sequence carries the code, which is what the scan looks for |
| Catalogues.DistinctCodes | TP3Sources/Catalogue.cpp:139-148 | no two products share a code, the rule `ajouterProduit` enforces by refusing a code already present |
| Catalogues.AllValid | TP3Sources/Catalogue.cpp:139-148 | every product in the catalogue satisfies its own class invariant |
| Catalogues.Catalogue.constructor | TP3Sources/Catalogue.cpp:35-43 | requires a non-empty name; stores the name and date given and no products |
| Catalogues.Catalogue.Valid | TP3Sources/Catalogue.cpp:226-228 | the catalogue invariant: the name checked by `verifieInvariant` is not empty; also the codes are pairwise distinct and every product satisfies its own invariant |
| Catalogues.Catalogue.Copie | TP3Sources/Catalogue.cpp:56-61 | the copy has the other's name, date and products, in order |
| Catalogues.Catalogue.Assign | TP3Sources/Catalogue.cpp:80-94 | after `operator=` the name, date and products are the other's; assigning an object to itself changes nothing |
| Catalogues.Catalogue.AsgDerniereMiseAJour | TP3Sources/Catalogue.cpp:116-122 | replaces the date; the name and products are unchanged |
| Catalogues.Catalogue.ProduitEstDejaPresent | TP3Sources/Catalogue.cpp:212-220 | true iff some product carries the code |
| Catalogues.Catalogue.AjouterProduit | TP3Sources/Catalogue.cpp:139-148 | a product whose code is present is refused with the duplicate error and nothing changes; otherwise the products become the old ones plus the new one at the end; codes stay pairwise distinct |
| Catalogues.Catalogue.SupprimerProduit | TP3Sources/Catalogue.cpp:164-176 | an absent code fails with the absent error and nothing changes; a present one removes the first product with it; codes stay pairwise distinct |
| Catalogues.Catalogue.ReqCatalogueFormate | TP3Sources/Catalogue.cpp:189-198 | the text is the two heading lines, then each product's text followed by a newline, in order (`CatalogueText`) |
| Catalogues.Entete | TP3Sources/Catalogue.cpp:191-192 | the two heading lines: "Catalogue " and the name, then "Dernière mise a jour : " and the date, each ended by `endl` |
| Catalogues.ProduitsText | TP3Sources/Catalogue.cpp:194-196 | each product's text followed by a newline, in the order of the products |
| Catalogues.CatalogueText | TP3Sources/Catalogue.cpp:189-198 | the reference text of a catalogue: "Catalogue <name>" and "Dernière mise a jour : <date>", each on its own line, then each product's text followed by a newline, in order |
| Catalogues.RemoveFirst | TP3Sources/Catalogue.cpp:166-171 | the products after `supprimerProduit`: the first product carrying the code is taken out, all others stay and keep their order |
| Catalogues.RemoveFirstAbsent | TP3Sources/Catalogue.cpp:166-172 | with no product carrying the code, nothing is removed |
| Catalogues.RemoveFirstSplit | TP3Sources/Catalogue.cpp:166-171 | with the first match at index k, the result is the products before k followed by those after k, in their order |
| Catalogues.RemoveFirstLength | TP3Sources/Catalogue.cpp:166-171 | removing a present code shortens the products by one |
| Catalogues.RemoveFirstDistinct | TP3Sources/Catalogue.cpp:164-176 | with distinct codes, the removed code no longer occurs and the codes left stay distinct |
| Catalogues.RemoveFirstValid | TP3Sources/Catalogue.cpp:164-176 | every product left after a removal is still valid |
| Catalogues.AppendKeepsDistinct | TP3Sources/Catalogue.cpp:139-148 | appending a product whose code is absent keeps the codes pairwise distinct |
| Catalogues.AppendKeepsValid | TP3Sources/Catalogue.cpp:146 | appending a valid product keeps every product valid |
| Catalogues.ProduitsTextAppend | TP3Sources/Catalogue.cpp:194-196 | the products' text of two runs in sequence is the text of the first run followed by that of the second |
| Catalogues.ProduitsTextContains | TP3Sources/Catalogue.cpp:194-196 | every product's own text appears in the products' text |
| Catalogues.TextAfterInsertion | TP3Sources/Catalogue.cpp:189-198 | after an append, the catalogue text is the old text followed by the new product's text and a newline |
| Catalogues.CopieIndependante | TP3Sources/tests/CatalogueTesteur.cpp:221-242 | a copy taken before an insertion into the original keeps the products it had, while the original gains the new one |
| Catalogues.InsertThenRemove | TP3Sources/Catalogue.cpp:139-176 | inserting a product with a new code and then removing that code gives back the products of before |

## Left out

- Floating point. `round(p_prix * 100)` is not modelled: prices are integer cents
  from the start. The `static_cast<int>` overflow of very large prices is left out
  for the same reason.
- Library conversions. `iss >> jj >> mm >> aaaa`, `std::stod` followed by the
  rounding, and `std::stoi` are the fields of the `Parsers` parameter. They return
  `None` where the source sees a failed read or a thrown exception. Their exact
  syntax (leading whitespace, trailing garbage, out-of-range values) is not modelled.
- Price text. How a stream prints a `double` in `reqProduitFormate` is the parameter
  `priceText`.
- Dates. The `Date` class and its `operator<<` are not part of this model. The date
  is the class type parameter `Date`, and its text is the parameter `dateText`.
- Streams. `p_is.good()` is the parameter `good`, and the lines `getline` reads from
  the stream are given as a sequence.
- Product objects. Update in place, `unique_ptr` ownership and aliasing are not
  modelled: products are values and `clone` copies a value. So a copy is independent
  of the original by construction, not by proof.
- validerCodeProduit: the model calls `GenererCodeProduit` instead of repeating the
  generator's loops. Lines 17-52 of the source compute the same string as lines
  184-227.
- Exceptions. The message text of `ProduitDejaPresentException`, of
  `ProduitAbsentException` and of the contract exceptions is not modelled. The two
  catalogue errors are the cases of `CatalogueError`, carrying the code.
- Preconditions. A violated `PRECONDITION` is a `requires`, so callers must meet it;
  throwing the exception is not modelled.
- Characters. `isalpha` and `toupper` follow the C locale. The UTF-8 "é" of
  "Reconditionné" and "Dernière" is one Dafny character, not two bytes.
- The accessors (`reqDescription`, `reqPrix`, `reqCode`, `reqGarantieMois`,
  `reqEstReconditionne`, `reqTaille`, `reqCouleur`, `reqNom`,
  `reqDateDerniereMiseAJour`). They are the datatype and class fields.
- Produits.Clone: its contract states equality with the original, not the product
  invariant. The invariant carries over because the clone is equal to the original.
- The console program, the Qt interface and the file loader that builds a catalogue
  from a file. These are interactive input and output.
