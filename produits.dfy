/** The product records: the base part every product has (description, price, code)
    and the two concrete kinds, electronics and clothing.

    The C++ hierarchy is closed (Produit is abstract; Electronique and Vetement are its
    only subclasses), so a product is a value of one datatype and virtual dispatch is a
    match. A price is a number of cents. */
module Produits {
  import opened Text
  import opened ValidationFormat
  import opened Wrappers

  /** The fields of Produit. */
  datatype Base = Base(description: string, prix: int, code: string)

  /** An Electronique or a Vetement, each with its base part. */
  datatype Product =
    | Electronique(base: Base, garantieMois: int, estReconditionne: bool)
    | Vetement(base: Base, taille: string, couleur: string)

  // ---------------------------------------------------------------------------
  // Invariants (verifieInvariant)
  // ---------------------------------------------------------------------------

  /** Produit's invariant: a description, a price of at least zero and a code that
      validates against both. */
  predicate ProduitInvariant(b: Base) {
    b.description != [] && b.prix >= 0 && ValidCode(b.code, b.description, b.prix)
  }

  /** Each kind adds its own check: a warranty of at least zero, or a standard size
      (exact match). */
  predicate ProductInvariant(p: Product) {
    && ProduitInvariant(p.base)
    && match p
       case Electronique(_, garantieMois, _) => garantieMois >= 0
       case Vetement(_, taille, _) => EstTailleStandard(taille)
  }

  // ---------------------------------------------------------------------------
  // Constructors
  // ---------------------------------------------------------------------------

  /** The Produit constructor: description, price and code as given, under the
      invariant as precondition. */
  function NewProduit(description: string, prix: int, code: string): (b: Base)
    requires description != [] && prix >= 0
    requires ValidCode(code, description, prix)
    ensures b.description == description && b.prix == prix && b.code == code
    ensures ProduitInvariant(b)
  {
    Base(description, prix, code)
  }

  /** The Electronique constructor: the base preconditions and a warranty of at least
      zero months; the refurbished flag is not constrained. */
  function NewElectronique(description: string, prix: int, code: string,
                           garantieMois: int, estReconditionne: bool): (p: Product)
    requires description != [] && prix >= 0
    requires ValidCode(code, description, prix)
    requires garantieMois >= 0
    ensures p.Electronique? && p.base == NewProduit(description, prix, code)
    ensures p.garantieMois == garantieMois && p.estReconditionne == estReconditionne
    ensures ProductInvariant(p)
  {
    Electronique(NewProduit(description, prix, code), garantieMois, estReconditionne)
  }

  /** The Vetement constructor: the base preconditions and a size spelled exactly as a
      standard size (no trimming, no case folding); the colour is not checked. */
  function NewVetement(description: string, prix: int, code: string,
                       taille: string, couleur: string): (p: Product)
    requires description != [] && prix >= 0
    requires ValidCode(code, description, prix)
    requires EstTailleStandard(taille)
    ensures p.Vetement? && p.base == NewProduit(description, prix, code)
    ensures p.taille == taille && p.couleur == couleur
    ensures ProductInvariant(p)
  {
    Vetement(NewProduit(description, prix, code), taille, couleur)
  }

  /** Every product that satisfies its invariant is what one of the two constructors
      builds from its own fields. */
  lemma InvariantMeansConstructible(p: Product)
    requires ProductInvariant(p)
    ensures p.Electronique? ==>
              p == NewElectronique(p.base.description, p.base.prix, p.base.code,
                                   p.garantieMois, p.estReconditionne)
    ensures p.Vetement? ==>
              p == NewVetement(p.base.description, p.base.prix, p.base.code,
                               p.taille, p.couleur)
  {
  }

  /** A colour is never checked: the empty colour is accepted by the constructor. */
  lemma EmptyColourAccepted(description: string, prix: int, code: string)
    requires description != [] && prix >= 0
    requires ValidCode(code, description, prix)
    ensures ProductInvariant(NewVetement(description, prix, code, "M", ""))
  {
  }

  // ---------------------------------------------------------------------------
  // asgPrix
  // ---------------------------------------------------------------------------

  /** The product after asgPrix: the new price, the code generated for the unchanged
      description at that price, everything else as before. */
  function WithPrix(p: Product, prix: int): Product {
    p.(base := Base(p.base.description, prix, CodeOf(p.base.description, prix)))
  }

  /** asgPrix: stores the price, then regenerates the code from the description and
      the new price. */
  method AsgPrix(p: Product, prix: int) returns (q: Product)
    requires ProductInvariant(p)
    requires prix >= 0
    ensures q == WithPrix(p, prix)
    ensures q.base.prix == prix && q.base.description == p.base.description
    ensures ValidCode(q.base.code, q.base.description, q.base.prix)
    ensures ProductInvariant(q)
  {
    q := p.(base := p.base.(prix := prix));
    var code := GenererCodeProduit(q.base.description, q.base.prix);
    q := q.(base := q.base.(code := code));
    AsgPrixKeepsInvariant(p, prix);
  }

  /** The postcondition of asgPrix and the invariant after it: the regenerated code
      validates, because the old code validating forces the description to hold at
      least four letters. */
  lemma AsgPrixKeepsInvariant(p: Product, prix: int)
    requires ProductInvariant(p)
    requires prix >= 0
    ensures ValidCode(WithPrix(p, prix).base.code, p.base.description, prix)
    ensures ProductInvariant(WithPrix(p, prix))
  {
    ValidCodeHasFourLetters(p.base.code, p.base.description, p.base.prix);
    RoundTrip(p.base.description, prix);
  }

  /** asgPrix touches only the price and the code: the kind, the description and the
      kind's own fields are those of before. */
  lemma AsgPrixFrame(p: Product, prix: int)
    ensures var q := WithPrix(p, prix);
            && q.base.description == p.base.description
            && (q.Electronique? <==> p.Electronique?)
            && (p.Electronique? ==>
                  q.garantieMois == p.garantieMois && q.estReconditionne == p.estReconditionne)
            && (p.Vetement? ==> q.taille == p.taille && q.couleur == p.couleur)
  {
  }

  /** The last assigned price wins; assigning the current price of a valid product
      changes nothing. */
  lemma AsgPrixLastWins(p: Product, x: int, y: int)
    ensures WithPrix(WithPrix(p, x), y) == WithPrix(p, y)
    ensures ProductInvariant(p) ==> WithPrix(p, p.base.prix) == p
  {
  }

  /** The code depends on the price through its cents part only: a new price with the
      same cents keeps the code. */
  lemma AsgPrixSameCentsSameCode(p: Product, prix: int)
    requires ProductInvariant(p) && prix >= 0
    requires prix % 100 == p.base.prix % 100
    ensures WithPrix(p, prix).base.code == p.base.code
  {
    CodeDependsOnCentsOnly(p.base.description, p.base.prix, prix);
  }

  /** The sample of the product tests: "T-shirt coton" at 19.95 moved to 24.50 gets the
      code PRD-TSHI-61 in place of PRD-TSHI-70. */
  lemma AsgPrixTshirt(p: Product)
    requires ProductInvariant(p)
    requires p.base.description == "T-shirt coton" && p.base.prix == 1995
    ensures p.base.code == "PRD-TSHI-70"
    ensures WithPrix(p, 2450).base.code == "PRD-TSHI-61"
  {
    CodeOfTshirt();
    CodeOfTshirt2450();
  }

  // ---------------------------------------------------------------------------
  // operator== and clone
  // ---------------------------------------------------------------------------

  /** Produit::operator==: the three base fields compare equal. */
  function ProduitEgal(a: Base, b: Base): (r: bool)
    ensures r <==> a == b
  {
    a.description == b.description && a.prix == b.prix && a.code == b.code
  }

  /** Electronique::operator==: the base parts, the warranty and the flag compare
      equal. */
  function ElectroniqueEgal(a: Product, b: Product): (r: bool)
    requires a.Electronique? && b.Electronique?
    ensures r <==> a == b
  {
    ProduitEgal(a.base, b.base) && a.garantieMois == b.garantieMois
    && a.estReconditionne == b.estReconditionne
  }

  /** Vetement::operator==: the base parts, the size and the colour compare equal. */
  function VetementEgal(a: Product, b: Product): (r: bool)
    requires a.Vetement? && b.Vetement?
    ensures r <==> a == b
  {
    ProduitEgal(a.base, b.base) && a.taille == b.taille && a.couleur == b.couleur
  }

  /** clone: a copy of the same kind that compares equal to the original. Being a value,
      the copy is not affected by a later asgPrix on the original. */
  function Clone(p: Product): (c: Product)
    ensures c.Electronique? <==> p.Electronique?
    ensures p.Electronique? ==> ElectroniqueEgal(c, p)
    ensures p.Vetement? ==> VetementEgal(c, p)
  {
    match p
    case Electronique(b, g, r) => Electronique(b, g, r)
    case Vetement(b, t, c) => Vetement(b, t, c)
  }

  /** The clone tests: clone, then assign a new price to the original. The copy keeps
      the old price and code while the original takes the new ones. */
  method CloneThenAsgPrix(p: Product, prix: int) returns (original: Product, copie: Product)
    requires ProductInvariant(p) && prix >= 0
    ensures copie.base == p.base && (copie.Electronique? <==> p.Electronique?)
    ensures original.base.prix == prix
    ensures original.base.code == CodeOf(p.base.description, prix)
  {
    copie := Clone(p);
    original := AsgPrix(p, prix);
  }

  // ---------------------------------------------------------------------------
  // reqProduitFormate
  // ---------------------------------------------------------------------------

  /** The line the concrete kinds print first. */
  const Separateur: string := "----------------------------"

  /** Produit::reqProduitFormate: description, price text and code on three lines, with
      no newline after the code. `priceText` is how the stream prints the price. */
  function ProduitFormate(b: Base, priceText: int -> string): string {
    b.description + "\n" + priceText(b.prix) + "\n" + b.code
  }

  /** Electronique::reqProduitFormate, every line ended by a newline. */
  function ElectroniqueFormate(p: Product, priceText: int -> string): string
    requires p.Electronique?
  {
    Separateur + "\n"
    + "Produit Electronique" + "\n"
    + ProduitFormate(p.base, priceText) + "\n"
    + ("Garantie : " + IntToString(p.garantieMois) + " mois") + "\n"
    + ("Reconditionné : " + (if p.estReconditionne then "Oui" else "Non")) + "\n"
  }

  /** Vetement::reqProduitFormate, every line ended by a newline. */
  function VetementFormate(p: Product, priceText: int -> string): string
    requires p.Vetement?
  {
    Separateur + "\n"
    + "Produit Vetement" + "\n"
    + ProduitFormate(p.base, priceText) + "\n"
    + ("Taille : " + p.taille) + "\n"
    + ("Couleur : " + p.couleur) + "\n"
  }

  /** The virtual reqProduitFormate, dispatched on the kind. */
  function ProductText(p: Product, priceText: int -> string): string {
    match p
    case Electronique(_, _, _) => ElectroniqueFormate(p, priceText)
    case Vetement(_, _, _) => VetementFormate(p, priceText)
  }

  /** The heading line of each kind. */
  function Intitule(p: Product): string {
    if p.Electronique? then "Produit Electronique" else "Produit Vetement"
  }

  /** The base part's lines, in order. */
  function BaseLines(b: Base, priceText: int -> string): seq<string> {
    [b.description, priceText(b.prix), b.code]
  }

  /** The lines of a product's text, in order; the final empty one stands for the
      newline that ends the last line. */
  function ProductLines(p: Product, priceText: int -> string): seq<string> {
    [Separateur, Intitule(p)]
    + BaseLines(p.base, priceText) + OwnLines(p) + [[]]
  }

  /** The base text is its three lines joined by newlines. */
  lemma ProduitFormateIsJoin(b: Base, priceText: int -> string)
    ensures ProduitFormate(b, priceText) == Join(BaseLines(b, priceText), '\n')
  {
    var d, t := b.description, priceText(b.prix);
    JoinSnoc([d], t, '\n');
    assert [d] + [t] == [d, t];
    JoinSnoc([d, t], b.code, '\n');
    assert [d, t] + [b.code] == BaseLines(b, priceText);
  }

  /** The two lines each kind adds after the base text. */
  function OwnLines(p: Product): seq<string> {
    match p
    case Electronique(_, g, r) =>
      ["Garantie : " + IntToString(g) + " mois",
       "Reconditionné : " + (if r then "Oui" else "Non")]
    case Vetement(_, t, c) => ["Taille : " + t, "Couleur : " + c]
  }

  /** The shape both kinds print: two heading lines, the base text, two lines of their
      own, each line ended by a newline. */
  lemma {:induction false} KindTextIsJoin(h0: string, h1: string, base: seq<string>,
                                          o0: string, o1: string)
    requires |base| >= 1
    ensures h0 + "\n" + h1 + "\n" + Join(base, '\n') + "\n" + o0 + "\n" + o1 + "\n"
            == Join([h0, h1] + base + [o0, o1, []], '\n')
  {
    var l1 := [h0, h1] + base;
    var l2 := l1 + [o0];
    var l3 := l2 + [o1];
    assert [h0, h1] + base + [o0, o1, []] == l3 + [[]];
    JoinSnoc([h0], h1, '\n');
    assert [h0] + [h1] == [h0, h1];
    JoinAppend([h0, h1], base, '\n');
    JoinSnoc(l1, o0, '\n');
    JoinSnoc(l2, o1, '\n');
    JoinSnoc(l3, [], '\n');
  }

  /** A product's text is its lines joined by newlines. */
  lemma ProductTextIsJoin(p: Product, priceText: int -> string)
    ensures ProductText(p, priceText) == Join(ProductLines(p, priceText), '\n')
  {
    ProduitFormateIsJoin(p.base, priceText);
    var own := OwnLines(p);
    var base := BaseLines(p.base, priceText);
    KindTextIsJoin(Separateur, Intitule(p), base, own[0], own[1]);
    assert own == [own[0], own[1]];
    assert ProductLines(p, priceText) == [Separateur, Intitule(p)] + base + [own[0], own[1], []];
    assert ProductText(p, priceText)
           == Separateur + "\n" + Intitule(p) + "\n" + Join(base, '\n') + "\n"
              + own[0] + "\n" + own[1] + "\n";
  }

  /** No line break appears in a code. */
  lemma NoNewlineInCode(name: string, totalCents: int)
    ensures '\n' !in CodeOf(name, totalCents)
  {
    var k := Key(name);
    var d := CheckDigits(Checksum(name, totalCents));
    assert forall i :: 0 <= i < |k| ==> 'A' <= k[i] <= 'Z';
    var t := IntToString(Checksum(name, totalCents));
    assert d == (if Checksum(name, totalCents) < 10 then "0" else "") + t;
    assert '\n' !in t;
    assert '\n' !in d;
    assert CodeOf(name, totalCents) == "PRD-" + k + "-" + d;
  }

  /** No line of a product holds a line break, when neither its free-text fields nor
      its price text do. */
  lemma LinesWithoutNewline(p: Product, priceText: int -> string)
    requires '\n' !in p.base.description && '\n' !in priceText(p.base.prix)
    requires '\n' !in p.base.code
    requires p.Vetement? ==> '\n' !in p.taille && '\n' !in p.couleur
    ensures forall k :: 0 <= k < |ProductLines(p, priceText)| ==>
              '\n' !in ProductLines(p, priceText)[k]
  {
    var head := [Separateur, Intitule(p)];
    var base := BaseLines(p.base, priceText);
    var own := OwnLines(p);
    OwnLinesWithoutNewline(p);
    var lines := head + base + own + [[]];
    forall k | 0 <= k < |lines| ensures '\n' !in lines[k] {
      if k < 2 {
        assert lines[k] == head[k];
      } else if k < 5 {
        assert lines[k] == base[k - 2];
      } else if k < 7 {
        assert lines[k] == own[k - 5];
      }
    }
  }

  /** Neither line a kind adds holds a line break, when its free text does not. */
  lemma OwnLinesWithoutNewline(p: Product)
    requires p.Vetement? ==> '\n' !in p.taille && '\n' !in p.couleur
    ensures |OwnLines(p)| == 2
    ensures forall k :: 0 <= k < 2 ==> '\n' !in OwnLines(p)[k]
  {
    if p.Electronique? {
      assert '\n' !in IntToString(p.garantieMois);
    }
  }

  /** Reading a product's text back line by line gives its lines, provided neither the
      description, the price text nor (for clothing) the colour hold a line break. */
  lemma ProductTextLines(p: Product, priceText: int -> string)
    requires ProductInvariant(p)
    requires '\n' !in p.base.description && '\n' !in priceText(p.base.prix)
    requires p.Vetement? ==> '\n' !in p.couleur
    ensures SplitOn(ProductText(p, priceText), '\n') == ProductLines(p, priceText)
  {
    NoNewlineInCode(p.base.description, p.base.prix);
    LinesWithoutNewline(p, priceText);
    ProductTextIsJoin(p, priceText);
    SplitJoin(ProductLines(p, priceText), '\n');
  }

  // ---------------------------------------------------------------------------
  // The file check and the constructors
  // ---------------------------------------------------------------------------

  /** The fields of an accepted product line with a price of at least zero meet the
      constructors' preconditions: the description is not empty and the code is valid
      (both from the code check), the warranty is at least zero, and the size is
      standard once uppercased. */
  lemma AcceptedFieldsMeetConstructors(champs: seq<string>, parsers: Parsers, prix: int)
    requires |champs| == 6 && ChampsOk(champs, parsers)
    requires parsers.priceCents(VirguleEnPoint(champs[2])) == Some(prix) && prix >= 0
    ensures champs[1] != [] && ValidCode(champs[3], champs[1], prix)
    ensures champs[0] == "Vetement" ==> EstTailleStandard(UpperAll(Trim(champs[4])))
    ensures champs[0] == "Electronique" ==>
              parsers.stoi(champs[4]).Some? && parsers.stoi(champs[4]).value >= 0
  {
    ValidCodeHasFourLetters(champs[3], champs[1], prix);
  }

  /** The file check uppercases the size, the constructor does not: a clothing line
      with the size "m" passes the file check, yet "m" is not a size the Vetement
      constructor admits. */
  lemma LowercaseSizeOnlyPassesFileCheck()
    ensures VetementChampsOk("m", "Blanc")
    ensures !EstTailleStandard("m")
  {
    assert Trim("m") == "m";
    assert Trim("Blanc") == "Blanc" by {
      TrimFixed("Blanc");
    }
    assert UpperAll("m") == "M";
  }
}
