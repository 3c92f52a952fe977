/** Small shared vocabulary: optional values, text tests and sequence helpers. */
module Prelude {

  datatype Option<+T> = None | Some(value: T)

  /** Python's str.isspace for one code point. */
  predicate IsSpace(c: char) {
    var n := c as int;
    || 0x9 <= n <= 0xd || 0x1c <= n <= 0x20 || n == 0x85 || n == 0xa0 || n == 0x1680
    || 0x2000 <= n <= 0x200a || n == 0x2028 || n == 0x2029 || n == 0x202f || n == 0x205f || n == 0x3000
  }

  /** `not text.strip()`. */
  predicate Blank(text: string) {
    forall c :: c in text ==> IsSpace(c)
  }

  /** The code points that `isspace` accepts, one by one. */
  const SPACES: set<int> := {0x9, 0xa, 0xb, 0xc, 0xd, 0x1c, 0x1d, 0x1e, 0x1f, 0x20, 0x85, 0xa0, 0x1680, 0x2000, 0x2001,
    0x2002, 0x2003, 0x2004, 0x2005, 0x2006, 0x2007, 0x2008, 0x2009, 0x200a, 0x2028, 0x2029, 0x202f, 0x205f, 0x3000}

  /** Nothing but such characters, or no character at all. */
  ghost predicate Wordless(text: string) {
    forall i :: 0 <= i < |text| ==> text[i] as int in SPACES
  }

  lemma BlankIsWordless()
    ensures forall text :: Blank(text) <==> Wordless(text)
  {
    forall c: char
      ensures IsSpace(c) <==> c as int in SPACES
    {
    }
    forall text: string
      ensures Blank(text) <==> Wordless(text)
    {
      hide IsSpace;
      assert Blank(text) ==> forall i :: 0 <= i < |text| ==> text[i] in text;
    }
  }

  /** `list(dict.fromkeys(items))`: first occurrences, in order. */
  function Dedup<T(==,!new)>(items: seq<T>): (r: seq<T>)
    ensures forall x :: x in r <==> x in items
    ensures Distinct(r)
  {
    if items == [] then []
    else
      var init := Dedup(items[..|items| - 1]);
      var last := items[|items| - 1];
      assert items == items[..|items| - 1] + [last];
      if last in init then init else init + [last]
  }

  ghost predicate Distinct<T>(items: seq<T>) {
    forall i, j :: 0 <= i < j < |items| ==> items[i] != items[j]
  }

  lemma {:induction false} DedupOfDistinct<T(!new)>(a: seq<T>)
    requires Distinct(a)
    ensures Dedup(a) == a
    decreases |a|
  {
    if a != [] {
      var init, last := a[..|a| - 1], a[|a| - 1];
      DedupOfDistinct(init);
      assert a == init + [last];
    }
  }

  function SetOf<T(==,!new)>(items: seq<T>): (r: set<T>)
    ensures forall x :: x in r <==> x in items
  {
    set x | x in items
  }

  lemma SubsetSize<T>(a: set<T>, b: set<T>)
    requires a <= b
    ensures |a| <= |b|
  {
    assert b == a + (b - a);
  }
}
