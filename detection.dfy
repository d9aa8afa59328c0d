/**
 * The keyword detection on descriptions: banned products and the category are
 * both found by case-insensitive substring search, so they depend only on the
 * letters of the description, not on their case.
 */
module DetectionProperties {
  import opened PyText
  import opened Tables
  import opened Compliance

  lemma LowerSlice(text: string, i: int, j: int)
    requires 0 <= i <= j <= |text|
    ensures Lower(text)[i..j] == Lower(text[i..j])
  {
  }

  /** The text spells `word` at position `i`, in any mix of cases. */
  ghost predicate SpelledAt(text: string, word: string, i: int)
  {
    0 <= i && i + |word| <= |text| && Lower(text[i..i + |word|]) == Lower(word)
  }

  /** The text spells `word` somewhere, in any mix of cases. */
  ghost predicate Spelled(text: string, word: string)
  {
    exists i :: SpelledAt(text, word, i)
  }

  /** Searching the folded text for a folded word finds it exactly where the
      text spells the word in any mix of cases. */
  lemma ContainsIgnoringCase(text: string, word: string)
    ensures Contains(Lower(text), Lower(word)) <==> exists i :: SpelledAt(text, word, i)
  {
    if Contains(Lower(text), Lower(word)) {
      var i :| OccursAt(Lower(text), Lower(word), i);
      LowerSlice(text, i, i + |word|);
      assert SpelledAt(text, word, i);
    }
    if exists i :: SpelledAt(text, word, i) {
      var i :| SpelledAt(text, word, i);
      LowerSlice(text, i, i + |word|);
      assert OccursAt(Lower(text), Lower(word), i);
    }
  }

  /** A product is detected exactly when it is banned and the description
      spells its name somewhere, in any mix of cases. */
  lemma BannedInExactly(text: string, item: string)
    ensures item in BannedIn(text) <==>
      item in BannedProducts && exists i :: SpelledAt(text, item, i)
  {
    ContainsIgnoringCase(text, item);
  }

  /** A description is of the electronics category exactly when it spells
      "electronics" somewhere, in any mix of cases, whatever other keywords it
      holds. */
  lemma ElectronicsExactly(text: string)
    ensures DetectCategory(text) == Electronics <==> exists i :: SpelledAt(text, "electronics", i)
  {
    assert DetectCategory(text) == Electronics <==> Contains(Lower(text), "electronics");
    assert Lower("electronics") == "electronics";
    ContainsIgnoringCase(text, "electronics");
  }

  /** A description is pharmaceutical exactly when it does not spell
      "electronics" but spells "medicine", "drug" or "pharmaceutical", in any
      mix of cases. */
  lemma PharmaceuticalsExactly(text: string)
    ensures DetectCategory(text) == Pharmaceuticals <==>
      !Spelled(text, "electronics") &&
      (Spelled(text, "medicine") || Spelled(text, "drug") || Spelled(text, "pharmaceutical"))
  {
    KeywordsSpelled(text);
  }

  /** A description is machinery exactly when it spells none of the earlier
      rules' keywords but spells "machine" or "equipment", in any mix of cases. */
  lemma MachineryExactly(text: string)
    ensures DetectCategory(text) == Machinery <==>
      !Spelled(text, "electronics") &&
      !Spelled(text, "medicine") && !Spelled(text, "drug") && !Spelled(text, "pharmaceutical") &&
      (Spelled(text, "machine") || Spelled(text, "equipment"))
  {
    KeywordsSpelled(text);
  }

  /** A description falls into "Other" exactly when it spells none of the six
      keywords, in any mix of cases. */
  lemma OtherExactly(text: string)
    ensures DetectCategory(text) == Other <==>
      !Spelled(text, "electronics") &&
      !Spelled(text, "medicine") && !Spelled(text, "drug") && !Spelled(text, "pharmaceutical") &&
      !Spelled(text, "machine") && !Spelled(text, "equipment")
  {
    KeywordsSpelled(text);
  }

  /** Each keyword of the category rules is found in the folded description
      exactly when the description spells it in any mix of cases. */
  lemma KeywordsSpelled(text: string)
    ensures Contains(Lower(text), "electronics") <==> Spelled(text, "electronics")
    ensures Contains(Lower(text), "medicine") <==> Spelled(text, "medicine")
    ensures Contains(Lower(text), "drug") <==> Spelled(text, "drug")
    ensures Contains(Lower(text), "pharmaceutical") <==> Spelled(text, "pharmaceutical")
    ensures Contains(Lower(text), "machine") <==> Spelled(text, "machine")
    ensures Contains(Lower(text), "equipment") <==> Spelled(text, "equipment")
  {
    assert Lower("electronics") == "electronics";
    assert Lower("medicine") == "medicine";
    assert Lower("drug") == "drug";
    assert Lower("pharmaceutical") == "pharmaceutical";
    assert Lower("machine") == "machine";
    assert Lower("equipment") == "equipment";
    ContainsIgnoringCase(text, "electronics");
    ContainsIgnoringCase(text, "medicine");
    ContainsIgnoringCase(text, "drug");
    ContainsIgnoringCase(text, "pharmaceutical");
    ContainsIgnoringCase(text, "machine");
    ContainsIgnoringCase(text, "equipment");
  }

  /** Folding the description first changes neither the category nor the
      banned products found. */
  lemma DetectionIgnoresCase(text: string)
    ensures DetectCategory(Lower(text)) == DetectCategory(text)
    ensures BannedIn(Lower(text)) == BannedIn(text)
  {
    LowerIdempotent(text);
  }

  /** "Electronics" wins over "machine" when both appear. */
  lemma ElectronicsBeforeMachinery()
    ensures DetectCategory("Used Electronics machine") == Electronics
  {
    ContainsLowerAt("Used Electronics machine", "electronics", 5);
  }

  /** A banned product is found whatever case the description writes it in. */
  lemma IvoryInUpperCase()
    ensures "Ivory" in BannedIn("I am shipping IVORY statues")
  {
    assert Lower("Ivory") == "ivory";
    ContainsLowerAt("I am shipping IVORY statues", "ivory", 14);
  }
}
