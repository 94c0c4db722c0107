/** The keys of a deck's children, written out child by child. */
module DeckNames {
  import opened Text
  import opened DeckKeys

  /** Elements that are not shown. */
  predicate IsHelper(tag: string) {
    tag == "template" || tag == "script" || tag == "style" || tag == "sc-helmet" || tag == "helmet"
  }

  /** Elements that stand for an unknown number of children. */
  predicate IsFlow(tag: string) {
    tag == "sc-if" || tag == "sc-for" || tag == "sc-else" || tag == "dc-import" || tag == "x-import"
  }

  /** Eight hexadecimal digits, letters in lower case. */
  predicate IsId(id: string) {
    |id| == 8 && forall i :: 0 <= i < 8 ==> '0' <= id[i] <= '9' || 'a' <= id[i] <= 'f'
  }

  predicate IsShown(c: Node) {
    c.Element? && !IsHelper(c.tag) && !IsFlow(c.tag)
  }

  /** A child that can have a key: blank text, a helper, a shown element with an id, or no element at all. */
  predicate CanHaveKey(c: Node) {
    match c
    case TextNode(value) => AllSpace(value)
    case Element(tag, id) => IsHelper(tag) || (!IsFlow(tag) && id.Some? && IsId(id.value))
    case OtherNode => true
  }

  lemma SameChildren(c: Node)
    ensures IsSlide(c) <==> IsShown(c)
    ensures Acceptable(c) <==> CanHaveKey(c)
  {
  }

  /** Main: there are keys exactly when every child can have one and no two shown elements have the same id. */
  lemma KeysExistIff(cs: seq<Node>)
    ensures Keys(cs).Some? <==>
      && (forall j :: 0 <= j < |cs| ==> CanHaveKey(cs[j]))
      && (forall i, j :: 0 <= i < j < |cs| && IsShown(cs[i]) && IsShown(cs[j]) ==> cs[i].slideId != cs[j].slideId)
  {
    forall c ensures (IsSlide(c) <==> IsShown(c)) && (Acceptable(c) <==> CanHaveKey(c)) {
      SameChildren(c);
    }
    hide IsSlide, IsShown, Acceptable, CanHaveKey;
  }

  // ----- blanks -----

  /** The next element at or after `j` is at `p`. */
  predicate NextIs(cs: seq<Node>, j: nat, p: nat) {
    j <= p < |cs| && cs[p].Element? && forall i :: j <= i < p ==> !cs[i].Element?
  }

  predicate NoneFollows(cs: seq<Node>, j: nat) {
    forall i :: j <= i < |cs| ==> !cs[i].Element?
  }

  lemma {:induction false} UpcomingAt(cs: seq<Node>, j: nat, p: nat)
    requires NextIs(cs, j, p)
    ensures Upcoming(cs, j) == if IsShown(cs[p]) then cs[p].slideId else None
    decreases p - j
  {
    if j < p {
      UpcomingAt(cs, j + 1, p);
    } else {
      SameChildren(cs[p]);
    }
  }

  lemma {:induction false} NothingUpcoming(cs: seq<Node>, j: nat)
    requires j <= |cs| && NoneFollows(cs, j)
    ensures Upcoming(cs, j) == None
    decreases |cs| - j
  {
    if j < |cs| {
      NothingUpcoming(cs, j + 1);
    }
  }

  /** Main: a blank carries the id of the slide right behind it, whatever blanks and other nodes stand between. */
  lemma BlankIsNamedAfterItsSlide(cs: seq<Node>, j: nat, p: nat, id: string)
    requires NextIs(cs, j, p) && IsShown(cs[p]) && cs[p].slideId == Some(id) && id != ""
    ensures BlankBase(cs, j) == "omid-ws:" + id
  {
    UpcomingAt(cs, j, p);
  }

  /** Main: in front of a helper, or at the end, it carries none. */
  lemma BlankWithoutSlide(cs: seq<Node>, j: nat, p: nat)
    requires j <= |cs| && (NoneFollows(cs, j) || (NextIs(cs, j, p) && IsHelper(cs[p].tag)))
    ensures BlankBase(cs, j) == "omid-ws:aux"
  {
    if NoneFollows(cs, j) {
      NothingUpcoming(cs, j);
    } else {
      UpcomingAt(cs, j, p);
    }
  }

  /** The blanks before `j` with the same name. */
  function Namesakes(cs: seq<Node>, j: nat, base: string): set<nat>
    requires j <= |cs|
  {
    set i: nat | i < j && cs[i].TextNode? && AllSpace(cs[i].value) && BlankBase(cs, i) == base
  }

  lemma {:induction false} BlanksAreCounted(cs: seq<Node>, j: nat, base: string)
    requires j <= |cs|
    ensures BlanksBefore(cs, j, base) == |Namesakes(cs, j, base)|
  {
    hide BlankBase, AllSpace;
    if j > 0 {
      BlanksAreCounted(cs, j - 1, base);
      assert Namesakes(cs, j, base) ==
        Namesakes(cs, j - 1, base) + if IsBlank(cs[j - 1]) && BlankBase(cs, j - 1) == base then {j - 1} else {};
    }
  }

  // ----- every key -----

  /** Main: each child's key. */
  lemma KeyIs(cs: seq<Node>, j: nat)
    requires Keys(cs).Some? && j < |cs|
    ensures var key := Keys(cs).value[j];
      if IsShown(cs[j]) then cs[j].slideId.Some? && key == Name("omid:" + cs[j].slideId.value)
      else if cs[j].TextNode? then
        var base := BlankBase(cs, j);
        var n := |Namesakes(cs, j, base)|;
        key == Name(if n == 0 then base else base + (":" + Decimal(n)))
      else key == Index(j)
  {
    SameChildren(cs[j]);
    assert Acceptable(cs[j]);
    hide Keyable, BlankBase, Namesakes, BlanksBefore, Decimal;
    if cs[j].TextNode? {
      var base := BlankBase(cs, j);
      BlanksAreCounted(cs, j, base);
      var n := BlanksBefore(cs, j, base);
      assert base + ":" + Decimal(n) == base + (":" + Decimal(n));
    }
  }

  /** The number that decimal digits stand for. */
  function NumberOf(digits: string): int {
    if digits == "" then 0
    else 10 * NumberOf(digits[..|digits| - 1]) + (digits[|digits| - 1] as int - '0' as int)
  }

  /** Main: a count is printed in decimal, without leading zeros. */
  lemma {:induction false} DecimalIsRead(n: nat)
    ensures NumberOf(Decimal(n)) == n && (n > 0 ==> Decimal(n)[0] != '0')
  {
    var s := Decimal(n);
    DigitIsRead(n % 10);
    if n < 10 {
      assert s[..0] == "";
    } else {
      DecimalIsRead(n / 10);
      assert s[..|s| - 1] == Decimal(n / 10) && s[0] == Decimal(n / 10)[0];
    }
  }

  lemma DigitIsRead(d: nat)
    requires d < 10
    ensures Digit(d) as int == d + '0' as int
  {
  }
}
