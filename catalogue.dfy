/** The catalogue: a name, the date of its last update and the ordered products it
    owns. The date is left abstract as the type parameter `Date`; how it prints is a
    parameter of the formatting method. */
module Catalogues {
  import opened Wrappers
  import opened Produits

  /** The two exceptions the catalogue throws, with the code they report. */
  datatype CatalogueError = ProduitDejaPresent(code: string) | ProduitAbsent(code: string)

  // ---------------------------------------------------------------------------
  // The product sequence
  // ---------------------------------------------------------------------------

  /** Some product carries the code. */
  predicate HasCode(ps: seq<Product>, code: string) {
    exists i :: 0 <= i < |ps| && ps[i].base.code == code
  }

  /** No two products share a code. */
  predicate DistinctCodes(ps: seq<Product>) {
    forall i, j :: 0 <= i < j < |ps| ==> ps[i].base.code != ps[j].base.code
  }

  /** Every product satisfies its class invariant. */
  predicate AllValid(ps: seq<Product>) {
    forall i :: 0 <= i < |ps| ==> ProductInvariant(ps[i])
  }

  /** The sequence without its first product carrying the code. */
  function RemoveFirst(ps: seq<Product>, code: string): seq<Product> {
    if ps == [] then []
    else if ps[0].base.code == code then ps[1..]
    else [ps[0]] + RemoveFirst(ps[1..], code)
  }

  /** Without the code nothing is removed. */
  lemma {:induction false} RemoveFirstAbsent(ps: seq<Product>, code: string)
    requires !HasCode(ps, code)
    ensures RemoveFirst(ps, code) == ps
  {
    if ps != [] {
      assert ps[0].base.code != code;
      assert !HasCode(ps[1..], code) by {
        forall i | 0 <= i < |ps| - 1 ensures ps[1..][i].base.code != code {
          assert ps[1..][i] == ps[i + 1];
        }
      }
      RemoveFirstAbsent(ps[1..], code);
    }
  }

  /** With the first match at index k, what is removed is exactly the product at k:
      the products before and after it keep their order. */
  lemma {:induction false} RemoveFirstSplit(ps: seq<Product>, code: string, k: nat)
    requires k < |ps| && ps[k].base.code == code
    requires forall j :: 0 <= j < k ==> ps[j].base.code != code
    ensures RemoveFirst(ps, code) == ps[..k] + ps[k + 1..]
  {
    if k > 0 {
      forall j | 0 <= j < k - 1 ensures ps[1..][j].base.code != code {
        assert ps[1..][j] == ps[j + 1];
      }
      RemoveFirstSplit(ps[1..], code, k - 1);
      assert ps[1..][..k - 1] == ps[1..k];
      assert ps[1..][k..] == ps[k + 1..];
      assert [ps[0]] + ps[1..k] == ps[..k];
    }
  }

  /** Removing the first match of a present code shortens the sequence by one. */
  lemma RemoveFirstLength(ps: seq<Product>, code: string, k: nat)
    requires k < |ps| && ps[k].base.code == code
    requires forall j :: 0 <= j < k ==> ps[j].base.code != code
    ensures |RemoveFirst(ps, code)| == |ps| - 1
  {
    RemoveFirstSplit(ps, code, k);
  }

  /** The products left are those before and after index k, in order. */
  lemma RemovedAt(ps: seq<Product>, k: nat, i: nat)
    requires k < |ps| && i < |ps| - 1
    ensures (ps[..k] + ps[k + 1..])[i] == (if i < k then ps[i] else ps[i + 1])
  {
  }

  /** With distinct codes, the removed code no longer occurs and the codes left stay
      distinct. */
  lemma RemoveFirstDistinct(ps: seq<Product>, code: string, k: nat)
    requires k < |ps| && ps[k].base.code == code
    requires forall j :: 0 <= j < k ==> ps[j].base.code != code
    requires DistinctCodes(ps)
    ensures !HasCode(RemoveFirst(ps, code), code)
    ensures DistinctCodes(RemoveFirst(ps, code))
  {
    RemoveFirstSplit(ps, code, k);
    var r := ps[..k] + ps[k + 1..];
    forall i | 0 <= i < |r| ensures r[i].base.code != code {
      RemovedAt(ps, k, i);
    }
    forall i, j | 0 <= i < j < |r| ensures r[i].base.code != r[j].base.code {
      RemovedAt(ps, k, i);
      RemovedAt(ps, k, j);
    }
  }

  /** Removal keeps every product left valid. */
  lemma RemoveFirstValid(ps: seq<Product>, code: string, k: nat)
    requires k < |ps| && ps[k].base.code == code
    requires forall j :: 0 <= j < k ==> ps[j].base.code != code
    requires AllValid(ps)
    ensures AllValid(RemoveFirst(ps, code))
  {
    RemoveFirstSplit(ps, code, k);
    var r := ps[..k] + ps[k + 1..];
    forall i | 0 <= i < |r| ensures ProductInvariant(r[i]) {
      RemovedAt(ps, k, i);
    }
  }

  /** Appending a product whose code is absent keeps the codes distinct. */
  lemma AppendKeepsDistinct(ps: seq<Product>, p: Product)
    requires DistinctCodes(ps) && !HasCode(ps, p.base.code)
    ensures DistinctCodes(ps + [p])
  {
    var r := ps + [p];
    forall i, j | 0 <= i < j < |r| ensures r[i].base.code != r[j].base.code {
      assert r[i] == ps[i];
      if j < |ps| {
        assert r[j] == ps[j];
      }
    }
  }

  /** Appending a valid product keeps every product valid. */
  lemma AppendKeepsValid(ps: seq<Product>, p: Product)
    requires AllValid(ps) && ProductInvariant(p)
    ensures AllValid(ps + [p])
  {
    var r := ps + [p];
    forall i | 0 <= i < |r| ensures ProductInvariant(r[i]) {
      if i < |ps| {
        assert r[i] == ps[i];
      }
    }
  }

  // ---------------------------------------------------------------------------
  // reqCatalogueFormate
  // ---------------------------------------------------------------------------

  /** The two heading lines: the name, then the date of the last update. */
  function Entete<Date>(nom: string, date: Date, dateText: Date -> string): string {
    "Catalogue " + nom + "\n" + "Dernière mise a jour : " + dateText(date) + "\n"
  }

  /** Each product's text followed by a newline, in order; `text` is how one product
      prints. */
  function ProduitsText(ps: seq<Product>, text: Product -> string): string {
    if ps == [] then []
    else ProduitsText(ps[..|ps| - 1], text) + text(ps[|ps| - 1]) + "\n"
  }

  /** How one product prints under a given price rendering: its reqProduitFormate. */
  function Formatter(priceText: int -> string): Product -> string {
    p => ProductText(p, priceText)
  }

  /** The whole text of a catalogue. */
  function CatalogueText<Date>(nom: string, date: Date, ps: seq<Product>,
                               dateText: Date -> string, priceText: int -> string): string {
    Entete(nom, date, dateText) + ProduitsText(ps, Formatter(priceText))
  }

  /** A product added at the end adds its text, and a newline, at the end. */
  lemma ProduitsTextSnoc(ps: seq<Product>, p: Product, text: Product -> string)
    ensures ProduitsText(ps + [p], text) == ProduitsText(ps, text) + text(p) + "\n"
  {
    assert (ps + [p])[..|ps|] == ps;
  }

  /** The text of the products is the concatenation of the texts of two runs. */
  lemma {:induction false} ProduitsTextAppend(a: seq<Product>, b: seq<Product>, text: Product -> string)
    ensures ProduitsText(a + b, text) == ProduitsText(a, text) + ProduitsText(b, text)
    decreases |b|
  {
    if b == [] {
      assert a + b == a;
    } else {
      var b' := b[..|b| - 1];
      var x := b[|b| - 1];
      assert b == b' + [x];
      assert a + b == (a + b') + [x];
      ProduitsTextAppend(a, b', text);
      ProduitsTextSnoc(a + b', x, text);
      ProduitsTextSnoc(b', x, text);
    }
  }

  /** A sequence is what comes before index i, the element at i, and what comes after. */
  lemma AroundIndex<T>(s: seq<T>, i: nat)
    requires i < |s|
    ensures s[..i] + [s[i]] + s[i + 1..] == s
  {
  }

  /** Concatenation regrouped on the right. */
  lemma Regroup<T>(a: seq<T>, b: seq<T>, c: seq<T>, d: seq<T>)
    ensures a + b + c + d == a + b + (c + d)
    ensures a + (b + c + d) == a + b + c + d
  {
  }

  /** The text of the products around the one at index i. */
  lemma ProduitsTextAround(ps: seq<Product>, i: nat, text: Product -> string)
    requires i < |ps|
    ensures ProduitsText(ps, text)
            == ProduitsText(ps[..i], text) + text(ps[i]) + "\n" + ProduitsText(ps[i + 1..], text)
  {
    var before, x, after := ps[..i], ps[i], ps[i + 1..];
    var upTo := before + [x];
    AroundIndex(ps, i);
    ProduitsTextAppend(upTo, after, text);
    ProduitsTextSnoc(before, x, text);
  }

  /** Every product's text appears in the text of the products. */
  lemma ProduitsTextContains(ps: seq<Product>, i: nat, text: Product -> string)
    requires i < |ps|
    ensures exists pre, post :: ProduitsText(ps, text) == pre + text(ps[i]) + post
  {
    ProduitsTextAround(ps, i, text);
    var pre := ProduitsText(ps[..i], text);
    var post := "\n" + ProduitsText(ps[i + 1..], text);
    Regroup(pre, text(ps[i]), "\n", ProduitsText(ps[i + 1..], text));
    assert ProduitsText(ps, text) == pre + text(ps[i]) + post;
  }

  /** One more product of the catalogue printed. */
  lemma CatalogueTextStep<Date>(nom: string, date: Date, ps: seq<Product>, i: nat,
                                dateText: Date -> string, priceText: int -> string)
    requires i < |ps|
    ensures CatalogueText(nom, date, ps[..i + 1], dateText, priceText)
            == CatalogueText(nom, date, ps[..i], dateText, priceText) + ProductText(ps[i], priceText) + "\n"
  {
    assert ps[..i + 1] == ps[..i] + [ps[i]];
    TextAfterInsertion(nom, date, ps[..i], ps[i], dateText, priceText);
  }

  // ---------------------------------------------------------------------------
  // The class
  // ---------------------------------------------------------------------------

  class Catalogue<Date> {
    var nom: string
    var dateDerniereMiseAJour: Date
    var produits: seq<Product>

    /** verifieInvariant checks the name; the model also keeps the codes distinct,
        which the insertion check guarantees, and every product valid, which their
        own constructors guarantee. */
    predicate Valid()
      reads this
    {
      nom != [] && DistinctCodes(produits) && AllValid(produits)
    }

    /** A catalogue with the given name and date and no products. */
    constructor(nom: string, date: Date)
      requires nom != []
      ensures Valid()
      ensures this.nom == nom && dateDerniereMiseAJour == date && produits == []
    {
      this.nom := nom;
      dateDerniereMiseAJour := date;
      produits := [];
    }

    /** The copy constructor: the same name and date, and a clone of each product in
        order. */
    constructor Copie(other: Catalogue<Date>)
      requires other.Valid()
      ensures Valid()
      ensures nom == other.nom && dateDerniereMiseAJour == other.dateDerniereMiseAJour
      ensures produits == other.produits
    {
      nom := other.nom;
      dateDerniereMiseAJour := other.dateDerniereMiseAJour;
      produits := [];
      new;
      var i := 0;
      while i < |other.produits|
        invariant 0 <= i <= |other.produits|
        invariant produits == other.produits[..i]
        invariant nom == other.nom && dateDerniereMiseAJour == other.dateDerniereMiseAJour
      {
        produits := produits + [Clone(other.produits[i])];
        i := i + 1;
      }
      assert other.produits[..i] == other.produits;
    }

    /** operator=: unless it is the same object, takes the other's name and date, then
        empties the products and clones the other's, in order. */
    method Assign(other: Catalogue<Date>)
      requires other.Valid()
      modifies this
      ensures Valid()
      ensures nom == old(other.nom) && dateDerniereMiseAJour == old(other.dateDerniereMiseAJour)
      ensures produits == old(other.produits)
      ensures other == this ==> nom == old(nom) && produits == old(produits)
    {
      if this != other {
        nom := other.nom;
        dateDerniereMiseAJour := other.dateDerniereMiseAJour;
        produits := [];
        var i := 0;
        while i < |other.produits|
          invariant 0 <= i <= |other.produits|
          invariant produits == other.produits[..i]
          invariant nom == other.nom && dateDerniereMiseAJour == other.dateDerniereMiseAJour
        {
          produits := produits + [Clone(other.produits[i])];
          i := i + 1;
        }
        assert other.produits[..i] == other.produits;
      }
    }

    /** asgDerniereMiseAJour: replaces the date and nothing else. */
    method AsgDerniereMiseAJour(date: Date)
      requires Valid()
      modifies this
      ensures Valid()
      ensures dateDerniereMiseAJour == date
      ensures nom == old(nom) && produits == old(produits)
    {
      dateDerniereMiseAJour := date;
    }

    /** produitEstDejaPresent: scans the products and stops at the first one with the
        code. */
    method ProduitEstDejaPresent(code: string) returns (present: bool)
      ensures present <==> HasCode(produits, code)
    {
      var i := 0;
      while i < |produits|
        invariant 0 <= i <= |produits|
        invariant forall j :: 0 <= j < i ==> produits[j].base.code != code
      {
        if produits[i].base.code == code {
          return true;
        }
        i := i + 1;
      }
      return false;
    }

    /** ajouterProduit: a product whose code is already present is refused with the
        duplicate error; otherwise a clone of it goes at the end. */
    method AjouterProduit(p: Product) returns (r: Outcome<CatalogueError>)
      requires Valid() && ProductInvariant(p)
      modifies this
      ensures Valid()
      ensures nom == old(nom) && dateDerniereMiseAJour == old(dateDerniereMiseAJour)
      ensures HasCode(old(produits), p.base.code) ==>
                r == Fail(ProduitDejaPresent(p.base.code)) && produits == old(produits)
      ensures !HasCode(old(produits), p.base.code) ==>
                r == Pass && produits == old(produits) + [p]
    {
      var present := ProduitEstDejaPresent(p.base.code);
      if present {
        return Fail(ProduitDejaPresent(p.base.code));
      }
      AppendKeepsDistinct(produits, p);
      AppendKeepsValid(produits, p);
      produits := produits + [Clone(p)];
      return Pass;
    }

    /** supprimerProduit: erases the first product with the code; when there is none,
        fails with the absent error. */
    method SupprimerProduit(code: string) returns (r: Outcome<CatalogueError>)
      requires Valid()
      modifies this
      ensures Valid()
      ensures nom == old(nom) && dateDerniereMiseAJour == old(dateDerniereMiseAJour)
      ensures !HasCode(old(produits), code) ==>
                r == Fail(ProduitAbsent(code)) && produits == old(produits)
      ensures HasCode(old(produits), code) ==>
                r == Pass && produits == RemoveFirst(old(produits), code)
    {
      var i := 0;
      while i < |produits|
        invariant 0 <= i <= |produits|
        invariant forall j :: 0 <= j < i ==> produits[j].base.code != code
        invariant produits == old(produits)
      {
        if produits[i].base.code == code {
          RemoveFirstSplit(produits, code, i);
          RemoveFirstDistinct(produits, code, i);
          RemoveFirstValid(produits, code, i);
          produits := produits[..i] + produits[i + 1..];
          return Pass;
        }
        i := i + 1;
      }
      return Fail(ProduitAbsent(code));
    }

    /** reqCatalogueFormate: the heading, then each product's text followed by a
        newline. */
    method ReqCatalogueFormate(dateText: Date -> string, priceText: int -> string)
      returns (s: string)
      ensures s == CatalogueText(nom, dateDerniereMiseAJour, produits, dateText, priceText)
    {
      s := "Catalogue " + nom + "\n" + "Dernière mise a jour : " + dateText(dateDerniereMiseAJour) + "\n";
      assert produits[..0] == [];
      var i := 0;
      while i < |produits|
        invariant 0 <= i <= |produits|
        invariant s == CatalogueText(nom, dateDerniereMiseAJour, produits[..i], dateText, priceText)
      {
        CatalogueTextStep(nom, dateDerniereMiseAJour, produits, i, dateText, priceText);
        s := s + ProductText(produits[i], priceText) + "\n";
        i := i + 1;
      }
      assert produits[..i] == produits;
    }
  }

  // ---------------------------------------------------------------------------
  // Properties relating several operations
  // ---------------------------------------------------------------------------

  /** After a successful insertion the text is the old text followed by the new
      product's text and a newline. */
  lemma TextAfterInsertion<Date>(nom: string, date: Date, ps: seq<Product>, p: Product,
                                 dateText: Date -> string, priceText: int -> string)
    ensures CatalogueText(nom, date, ps + [p], dateText, priceText)
            == CatalogueText(nom, date, ps, dateText, priceText) + ProductText(p, priceText) + "\n"
  {
    var f := Formatter(priceText);
    assert f(p) == ProductText(p, priceText);
    ProduitsTextSnoc(ps, p, f);
    Regroup(Entete(nom, date, dateText), ProduitsText(ps, f), f(p), "\n");
  }

  /** The copy tests: copy a catalogue, then insert into the original. The copy keeps
      the products it had, the original gains the new one. */
  method CopieIndependante<Date>(nom: string, date: Date, p: Product, q: Product)
    returns (original: Catalogue<Date>, copie: Catalogue<Date>)
    requires nom != [] && ProductInvariant(p) && ProductInvariant(q)
    requires p.base.code != q.base.code
    ensures original.produits == [p, q]
    ensures copie.produits == [p]
    ensures copie.nom == original.nom == nom
  {
    original := new Catalogue(nom, date);
    var r := original.AjouterProduit(p);
    assert !HasCode([], p.base.code);
    copie := new Catalogue<Date>.Copie(original);
    r := original.AjouterProduit(q);
    assert !HasCode([p], q.base.code);
  }

  /** Inserting and then removing the same code gives back the products of before. */
  lemma InsertThenRemove(ps: seq<Product>, p: Product)
    requires !HasCode(ps, p.base.code)
    ensures RemoveFirst(ps + [p], p.base.code) == ps
  {
    var r := ps + [p];
    RemoveFirstSplit(r, p.base.code, |ps|);
    assert r[..|ps|] == ps && r[|ps| + 1..] == [];
  }
}
