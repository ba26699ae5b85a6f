/**
 * Jaccard distance between two finite sets, the quantity every strategy of
 * the distance calculation computes, with the facts the distance matrix
 * relies on.  The distance is written the way scipy computes it per pair
 * (disagreeing categories over present ones), and proved equal to one minus
 * the Jaccard index.  Arithmetic is exact (`real`); two empty sets are at
 * distance 0, the value scipy returns for two all-zero vectors.
 */
module JaccardSpec {
  import opened Frames

  /**
   * scipy's per-pair distance: among the categories either row holds, the
   * share held by only one of them, (|A − B| + |B − A|) / |A ∪ B|; 0 when both
   * sets are empty.
   */
  function Distance<T>(a: set<T>, b: set<T>): real {
    if a + b == {} then 0.0 else ((|a - b| + |b - a|) as real) / (|a + b| as real)
  }

  /** The Jaccard index |A∩B| / |A∪B|, and 1 when both sets are empty. */
  function Index<T>(a: set<T>, b: set<T>): real {
    if a + b == {} then 1.0 else (|a * b| as real) / (|a + b| as real)
  }

  /** The union splits into the elements only one set holds and those both hold. */
  lemma SymmetricDifferenceCard<T>(a: set<T>, b: set<T>)
    ensures |a - b| + |b - a| + |a * b| == |a + b|
  {
  }

  /** Two shares of one positive whole add up to 1. */
  lemma ShareComplement(s: real, i: real, u: real)
    requires u > 0.0 && s + i == u
    ensures 1.0 - s / u == i / u
  {
    calc {
      i / u;
      (u - s) / u;
      u / u - s / u;
      1.0 - s / u;
    }
  }

  /** 1 - distance is the Jaccard index. */
  lemma OneMinusDistance<T>(a: set<T>, b: set<T>)
    ensures 1.0 - Distance(a, b) == Index(a, b)
  {
    if a + b != {} {
      SymmetricDifferenceCard(a, b);
      ShareComplement((|a - b| + |b - a|) as real, |a * b| as real, |a + b| as real);
    }
  }

  lemma DistanceBounds<T>(a: set<T>, b: set<T>)
    ensures 0.0 <= Distance(a, b) <= 1.0
  {
    if a + b != {} {
      SymmetricDifferenceCard(a, b);
      var s, u := (|a - b| + |b - a|) as real, |a + b| as real;
      assert 0.0 <= s <= u;
      assert 0.0 <= s / u <= 1.0 by {
        assert s / u * u == s;
      }
    }
  }

  lemma DistanceSymmetric<T>(a: set<T>, b: set<T>)
    ensures Distance(a, b) == Distance(b, a)
  {
    assert a + b == b + a;
  }

  lemma DistanceToSelf<T>(a: set<T>)
    ensures Distance(a, a) == 0.0
  {
    assert a - a == {};
  }

  /** Distance 0 exactly for equal sets: the distance separates different rows. */
  lemma DistanceZeroIff<T>(a: set<T>, b: set<T>)
    ensures Distance(a, b) == 0.0 <==> a == b
  {
    if a == b {
      DistanceToSelf(a);
    }
    if Distance(a, b) == 0.0 && a + b != {} {
      var s, u := (|a - b| + |b - a|) as real, |a + b| as real;
      assert s / u == 0.0;
      assert s == 0.0 by {
        assert s / u * u == s;
      }
      assert a - b == {} && b - a == {};
      assert a <= b && b <= a;
    }
  }

  /** Distance 1 exactly when the sets share nothing and are not both empty. */
  lemma DistanceOneIff<T>(a: set<T>, b: set<T>)
    ensures Distance(a, b) == 1.0 <==> a + b != {} && a * b == {}
  {
    if a + b != {} {
      SymmetricDifferenceCard(a, b);
      QuotientIsOne((|a - b| + |b - a|) as real, |a + b| as real);
    }
  }

  /** A share of a positive whole is 1 exactly when it is the whole. */
  lemma QuotientIsOne(s: real, u: real)
    requires u > 0.0
    ensures s / u == 1.0 <==> s == u
  {
    assert s / u * u == s;
  }

  /** The elements of `cats` at the positions in `js`. */
  function Image<C>(js: set<nat>, cats: seq<C>): set<C> {
    set j | j in js && j < |cats| :: cats[j]
  }

  /** Positions inside `cats`. */
  predicate Positions<C>(js: set<nat>, cats: seq<C>) {
    forall j :: j in js ==> j < |cats|
  }

  lemma {:induction false} ImageCard<C>(js: set<nat>, cats: seq<C>)
    requires Distinct(cats) && Positions(js, cats)
    ensures |Image(js, cats)| == |js|
  {
    if js != {} {
      var j :| j in js;
      ImageCard(js - {j}, cats);
      assert Image(js, cats) == Image(js - {j}, cats) + {cats[j]};
      assert cats[j] !in Image(js - {j}, cats);
    } else {
      assert Image(js, cats) == {};
    }
  }

  /**
   * Reading positions through a duplicate-free axis keeps the distance: the
   * distance of two 0/1 rows is the distance of the label sets they encode.
   */
  lemma DistanceOfImages<C>(a: set<nat>, b: set<nat>, cats: seq<C>)
    requires Distinct(cats) && Positions(a, cats) && Positions(b, cats)
    ensures Distance(Image(a, cats), Image(b, cats)) == Distance(a, b)
  {
    var ia, ib := Image(a, cats), Image(b, cats);
    OneMinusDistance(ia, ib);
    OneMinusDistance(a, b);
    assert ia * ib == Image(a * b, cats);
    assert ia + ib == Image(a + b, cats);
    ImageCard(a * b, cats);
    ImageCard(a + b, cats);
    assert (ia + ib == {}) == (a + b == {});
  }
}
