/** The document, as the selector engine sees it: a finite ordered forest.

    Nodes are indices, numbered so that a parent comes before its children; every
    finite forest has such a numbering. NIL stands for the null that the DOM returns
    where there is no node. */
module Dom {

  const NIL: int := -1

  /** parent[n] is n's parent or NIL, kids[n] its children in order (childNodes), and
      pos[n] its index among its parent's children. element[n] holds for nodeType 1. */
  datatype Document = Document(parent: seq<int>, pos: seq<nat>, kids: seq<seq<int>>, element: seq<bool>) {

    ghost predicate Shaped() {
      && |pos| == |parent| && |kids| == |parent| && |element| == |parent|
      && (forall n :: 0 <= n < |parent| ==> NIL <= parent[n] < n)
    }

    /** Children know their parent and position; parentless nodes have position 0. */
    ghost predicate Linked()
      requires Shaped()
    {
      && (forall p, k :: 0 <= p < |parent| && 0 <= k < |kids[p]| ==>
            && p < kids[p][k] < |parent|
            && parent[kids[p][k]] == p
            && pos[kids[p][k]] == k)
      && (forall n :: 0 <= n < |parent| && parent[n] != NIL ==>
            pos[n] < |kids[parent[n]]| && kids[parent[n]][pos[n]] == n)
      && (forall n :: 0 <= n < |parent| && parent[n] == NIL ==> pos[n] == 0)
    }

    /** Only elements have both a parent and children: documents and fragments are roots. */
    ghost predicate Rooted()
      requires Shaped()
    {
      forall n :: 0 <= n < |parent| && !element[n] && |kids[n]| > 0 ==> parent[n] == NIL
    }

    ghost predicate Valid() {
      Shaped() && Linked() && Rooted()
    }

    ghost predicate Has(n: int) {
      0 <= n < |parent|
    }

    ghost predicate Element(n: int) {
      Has(n) && n < |element| && element[n]
    }

    /** parentNode */
    function Parent(n: int): (r: int)
      requires Valid() && Has(n)
      ensures r == NIL || (Has(r) && r < n)
    {
      parent[n]
    }

    /** previousSibling */
    function Previous(n: int): (r: int)
      requires Valid() && Has(n)
      ensures r == NIL || (Has(r) && parent[r] == parent[n] && parent[n] != NIL && pos[r] + 1 == pos[n])
    {
      if parent[n] == NIL || pos[n] == 0 then NIL else kids[parent[n]][pos[n] - 1]
    }

    /** nextSibling */
    function Next(n: int): (r: int)
      requires Valid() && Has(n)
      ensures r == NIL || (Has(r) && parent[r] == parent[n] && parent[n] != NIL && pos[r] == pos[n] + 1)
    {
      if parent[n] == NIL || pos[n] + 1 == |kids[parent[n]]| then NIL else kids[parent[n]][pos[n] + 1]
    }
  }
}
