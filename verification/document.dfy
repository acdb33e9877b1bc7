/** A parsed HTML page as the scraper sees it through BeautifulSoup: the
    elements in document order, each with its tag name, its class set, its
    attributes and its text. `find_all` keeps the matching elements in
    document order and `find` is the first of them. */
module Document {
  import opened Wrappers

  datatype Element = Element(tag: string, classes: set<string>, attrs: map<string, string>, text: string)

  type Doc = seq<Element>

  /** A lookup by tag name, optionally restricted to elements carrying a
      class (`find('div', {'class': 'score-value'})`). */
  datatype Query = Query(tag: string, cls: Option<string>)

  predicate Matches(e: Element, q: Query) {
    e.tag == q.tag && (q.cls.Some? ==> q.cls.value in e.classes)
  }

  /** `soup.find_all(...)` */
  function FindAll(doc: Doc, q: Query): (found: seq<Element>)
    ensures |found| <= |doc|
    ensures forall i :: 0 <= i < |found| ==> Matches(found[i], q)
  {
    if doc == [] then []
    else (if Matches(doc[0], q) then [doc[0]] else []) + FindAll(doc[1..], q)
  }

  /** `soup.find(...)`: the first match, or None. */
  function Find(doc: Doc, q: Query): Option<Element> {
    var found := FindAll(doc, q);
    if found == [] then None else Some(found[0])
  }

  /** The element at index `i` is the first one matching `q`. */
  ghost predicate IsFirst(doc: Doc, q: Query, i: int) {
    0 <= i < |doc| && Matches(doc[i], q) && forall j :: 0 <= j < i ==> !Matches(doc[j], q)
  }

  /** `find_all` respects document order: the matches of a page followed by
      more elements are the matches of the page followed by the matches of
      the rest. */
  lemma {:induction false} FindAllAppend(a: Doc, b: Doc, q: Query)
    ensures FindAll(a + b, q) == FindAll(a, q) + FindAll(b, q)
  {
    if a != [] {
      assert (a + b)[1..] == a[1..] + b;
      FindAllAppend(a[1..], b, q);
    } else {
      assert a + b == b;
    }
  }

  /** `find_all` finds nothing exactly when no element matches. */
  lemma {:induction false} FindAllEmpty(doc: Doc, q: Query)
    ensures FindAll(doc, q) == [] <==> forall i :: 0 <= i < |doc| ==> !Matches(doc[i], q)
  {
    if doc != [] {
      FindAllEmpty(doc[1..], q);
      if !Matches(doc[0], q) {
        forall i | 0 <= i < |doc[1..]|
          ensures doc[1..][i] == doc[i + 1]
        {
        }
      }
    }
  }

  /** `find` returns the first matching element in document order, and
      None only when nothing matches. */
  lemma {:induction false} FindIsFirst(doc: Doc, q: Query)
    ensures Find(doc, q).None? <==> forall i :: 0 <= i < |doc| ==> !Matches(doc[i], q)
    ensures Find(doc, q).Some? ==> exists i :: IsFirst(doc, q, i) && doc[i] == Find(doc, q).value
  {
    FindAllEmpty(doc, q);
    if doc != [] {
      if Matches(doc[0], q) {
        assert IsFirst(doc, q, 0);
      } else {
        FindIsFirst(doc[1..], q);
        if Find(doc, q).Some? {
          var i :| IsFirst(doc[1..], q, i) && doc[1..][i] == Find(doc[1..], q).value;
          assert IsFirst(doc, q, i + 1);
        }
      }
    }
  }

  /** The matches `find_all` returns are exactly the matching elements of
      the page, each as many times as it occurs there. */
  lemma {:induction false} FindAllCounts(doc: Doc, q: Query, e: Element)
    ensures multiset(FindAll(doc, q))[e] == if Matches(e, q) then multiset(doc)[e] else 0
  {
    if doc != [] {
      FindAllCounts(doc[1..], q, e);
      assert doc == [doc[0]] + doc[1..];
    }
  }
}
