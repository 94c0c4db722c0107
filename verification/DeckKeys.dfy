/** The keyed-children pass over a deck: one key for every child, or no keys at all. */
module DeckKeys {
  import opened Text

  datatype Option<+T> = None | Some(value: T)

  /** A retained child node: text, an element with its `data-om-slide-id`, or anything else. */
  datatype Node = TextNode(value: string) | Element(tag: string, slideId: Option<string>) | OtherNode

  /** A key is a position or a name, as the two kinds of value the pass pushes. */
  datatype Key = Index(i: nat) | Name(name: string)

  const AUX_TAGS := {"template", "script", "style", "sc-helmet", "helmet"}
  const CONTROL_FLOW_TAGS := {"sc-if", "sc-for", "sc-else", "dc-import", "x-import"}

  predicate IsAux(tag: string) { tag in AUX_TAGS }

  predicate IsControlFlow(tag: string) { tag in CONTROL_FLOW_TAGS }

  predicate IsHex(c: char) { '0' <= c <= '9' || 'a' <= c <= 'f' }

  /** `/^[0-9a-f]{8}$/` */
  predicate IsSlideId(v: string) {
    |v| == 8 && forall i :: 0 <= i < |v| ==> IsHex(v[i])
  }

  predicate IsSlide(c: Node) {
    c.Element? && !IsAux(c.tag) && !IsControlFlow(c.tag)
  }

  predicate IsBlank(c: Node) {
    c.TextNode? && AllSpace(c.value)
  }

  /** The child can be keyed on its own account: duplicates aside. */
  predicate Acceptable(c: Node) {
    match c
    case TextNode(value) => AllSpace(value)
    case Element(tag, id) => IsAux(tag) || (!IsControlFlow(tag) && id.Some? && IsSlideId(id.value))
    case OtherNode => true
  }

  /** When the pass gives keys: every child acceptable, no slide id twice. */
  predicate Keyable(cs: seq<Node>) {
    && (forall j :: 0 <= j < |cs| ==> Acceptable(cs[j]))
    && (forall i, j :: 0 <= i < j < |cs| && IsSlide(cs[i]) && IsSlide(cs[j]) ==> cs[i].slideId != cs[j].slideId)
  }

  /** The slide id of the first element at or after `j`; none when that element is no slide. */
  function Upcoming(cs: seq<Node>, j: nat): Option<string>
    requires j <= |cs|
    decreases |cs| - j
  {
    if j == |cs| then None
    else if cs[j].Element? then (if IsSlide(cs[j]) then cs[j].slideId else None)
    else Upcoming(cs, j + 1)
  }

  /** The name shared by all blanks in front of one slide. */
  function BlankBase(cs: seq<Node>, j: nat): string
    requires j <= |cs|
  {
    var next := Upcoming(cs, j);
    "omid-ws:" + if next.Some? && next.value != "" then next.value else "aux"
  }

  /** How many blanks before position `j` share the name `base`. */
  function BlanksBefore(cs: seq<Node>, j: nat, base: string): nat
    requires j <= |cs|
  {
    if j == 0 then 0
    else BlanksBefore(cs, j - 1, base) + if IsBlank(cs[j - 1]) && BlankBase(cs, j - 1) == base then 1 else 0
  }

  function Digit(d: nat): char
    requires d < 10
  {
    ['0', '1', '2', '3', '4', '5', '6', '7', '8', '9'][d]
  }

  /** A number as JavaScript prints it. */
  function Decimal(n: nat): (s: string)
    ensures s != ""
    ensures forall i :: 0 <= i < |s| ==> '0' <= s[i] <= '9'
  {
    if n < 10 then [Digit(n)] else Decimal(n / 10) + [Digit(n % 10)]
  }

  function CountedName(base: string, n: nat): string {
    if n == 0 then base else base + ":" + Decimal(n)
  }

  /** The key of child `j` in a keyable list. */
  function KeyAt(cs: seq<Node>, j: nat): Key
    requires j < |cs| && Acceptable(cs[j])
  {
    match cs[j]
    case TextNode(_) =>
      var base := BlankBase(cs, j);
      Name(CountedName(base, BlanksBefore(cs, j, base)))
    case Element(tag, id) => if IsAux(tag) then Index(j) else Name("omid:" + id.value)
    case OtherNode => Index(j)
  }

  /** The specification of the pass. */
  function Keys(cs: seq<Node>): Option<seq<Key>> {
    if Keyable(cs) then Some(seq(|cs|, j requires 0 <= j < |cs| => KeyAt(cs, j))) else None
  }

  /** A key as the renderer compares it: numbers are printed. */
  function Printed(k: Key): string {
    match k
    case Index(i) => Decimal(i)
    case Name(name) => name
  }

  // ----- distinct keys -----

  lemma {:induction false} DecimalIsInjective(m: nat, n: nat)
    requires Decimal(m) == Decimal(n)
    ensures m == n
  {
    var s, t := Decimal(m), Decimal(n);
    assert s[|s| - 1] == t[|t| - 1];
    assert Digit(m % 10) == Digit(n % 10);
    assert m % 10 == n % 10;
    if m < 10 || n < 10 {
      assert |s| == 1;
    } else {
      assert s[..|s| - 1] == Decimal(m / 10) && t[..|t| - 1] == Decimal(n / 10);
      DecimalIsInjective(m / 10, n / 10);
    }
  }

  /** The names blanks can have: eight hexadecimal digits or "aux" behind the prefix. */
  ghost predicate IsBase(base: string) {
    exists v :: base == "omid-ws:" + v && (v == "aux" || IsSlideId(v))
  }

  /** The tenth character tells "aux" from an id: `u` is no hexadecimal digit. */
  lemma AuxIsNoSlideId(m: nat, w: string, n: nat)
    requires IsSlideId(w)
    ensures CountedName("omid-ws:aux", m) != CountedName("omid-ws:" + w, n)
  {
    assert CountedName("omid-ws:aux", m)[9] == 'u';
    assert CountedName("omid-ws:" + w, n)[9] == w[1];
    assert IsHex(w[1]);
  }

  lemma CountsAreInjective(a: string, m: nat, b: string, n: nat)
    requires |a| == |b| && CountedName(a, m) == CountedName(b, n)
    ensures a == b && m == n
  {
    var x, y := CountedName(a, m), CountedName(b, n);
    assert x[..|a|] == a && y[..|b|] == b;
    if m != 0 && n != 0 {
      assert x[|a| + 1..] == Decimal(m) && y[|a| + 1..] == Decimal(n);
      DecimalIsInjective(m, n);
    }
  }

  lemma CountedNamesAreInjective(a: string, m: nat, b: string, n: nat)
    requires IsBase(a) && IsBase(b)
    requires CountedName(a, m) == CountedName(b, n)
    ensures a == b && m == n
  {
    var v :| a == "omid-ws:" + v && (v == "aux" || IsSlideId(v));
    var w :| b == "omid-ws:" + w && (w == "aux" || IsSlideId(w));
    if v == "aux" && IsSlideId(w) {
      AuxIsNoSlideId(m, w, n);
    } else if w == "aux" && IsSlideId(v) {
      AuxIsNoSlideId(n, v, m);
    } else {
      CountsAreInjective(a, m, b, n);
    }
  }

  lemma {:induction false} UpcomingIsSlideId(cs: seq<Node>, j: nat)
    requires Keyable(cs) && j <= |cs|
    ensures Upcoming(cs, j).Some? ==> IsSlideId(Upcoming(cs, j).value)
    decreases |cs| - j
  {
    if j < |cs| {
      assert Acceptable(cs[j]);
      if !cs[j].Element? {
        UpcomingIsSlideId(cs, j + 1);
      }
    }
  }

  lemma BlankBaseIsBase(cs: seq<Node>, j: nat)
    requires Keyable(cs) && j <= |cs|
    ensures IsBase(BlankBase(cs, j))
  {
    UpcomingIsSlideId(cs, j);
    var next := Upcoming(cs, j);
    var v := if next.Some? && next.value != "" then next.value else "aux";
    assert BlankBase(cs, j) == "omid-ws:" + v;
  }

  lemma {:induction false} BlanksBeforeGrows(cs: seq<Node>, i: nat, j: nat, base: string)
    requires i < j <= |cs|
    requires IsBlank(cs[i]) && BlankBase(cs, i) == base
    ensures BlanksBefore(cs, i, base) < BlanksBefore(cs, j, base)
    decreases j
  {
    if i + 1 < j {
      BlanksBeforeGrows(cs, i, j - 1, base);
    }
  }

  datatype Kind = SlideName | BlankName | Position

  function KindOf(printed: string): Kind
  {
    if |printed| > 5 && printed[0] == 'o' then (if printed[4] == ':' then SlideName else BlankName) else Position
  }

  /** Slide names, blank names and positions never meet. */
  lemma KeyShape(cs: seq<Node>, j: nat)
    requires Keyable(cs) && j < |cs|
    ensures KindOf(Printed(KeyAt(cs, j))) ==
      if IsSlide(cs[j]) then SlideName else if IsBlank(cs[j]) then BlankName else Position
  {
    assert Acceptable(cs[j]);
    if IsBlank(cs[j]) {
      var base := BlankBase(cs, j);
      assert base[0] == 'o' && base[4] == '-';
      assert CountedName(base, BlanksBefore(cs, j, base))[..5] == base[..5];
    }
  }

  lemma SlideKeysDiffer(cs: seq<Node>, i: nat, j: nat)
    requires Keyable(cs) && i < j < |cs| && IsSlide(cs[i]) && IsSlide(cs[j])
    ensures Printed(KeyAt(cs, i)) != Printed(KeyAt(cs, j))
  {
    assert Acceptable(cs[i]) && Acceptable(cs[j]);
    var p, q := Printed(KeyAt(cs, i)), Printed(KeyAt(cs, j));
    assert p[5..] == cs[i].slideId.value && q[5..] == cs[j].slideId.value;
  }

  lemma BlankKeysDiffer(cs: seq<Node>, i: nat, j: nat)
    requires Keyable(cs) && i < j < |cs| && IsBlank(cs[i]) && IsBlank(cs[j])
    ensures Printed(KeyAt(cs, i)) != Printed(KeyAt(cs, j))
  {
    hide Keyable, IsBase, CountedName, BlankBase, BlanksBefore;
    var a, b := BlankBase(cs, i), BlankBase(cs, j);
    BlankBaseIsBase(cs, i);
    BlankBaseIsBase(cs, j);
    if CountedName(a, BlanksBefore(cs, i, a)) == CountedName(b, BlanksBefore(cs, j, b)) {
      CountedNamesAreInjective(a, BlanksBefore(cs, i, a), b, BlanksBefore(cs, j, b));
      BlanksBeforeGrows(cs, i, j, a);
    }
  }

  lemma KeysDiffer(cs: seq<Node>, i: nat, j: nat)
    requires Keyable(cs) && i < j < |cs|
    ensures Printed(KeyAt(cs, i)) != Printed(KeyAt(cs, j))
  {
    assert Acceptable(cs[i]) && Acceptable(cs[j]);
    hide KindOf, Keyable;
    KeyShape(cs, i);
    KeyShape(cs, j);
    if IsSlide(cs[i]) && IsSlide(cs[j]) {
      SlideKeysDiffer(cs, i, j);
    } else if IsBlank(cs[i]) && IsBlank(cs[j]) {
      BlankKeysDiffer(cs, i, j);
    } else if Decimal(i) == Decimal(j) {
      DecimalIsInjective(i, j);
    }
  }

  /** Main: whenever there are keys, there is one for every child and no two print alike. */
  lemma KeysAreDistinct(cs: seq<Node>)
    requires Keys(cs).Some?
    ensures |Keys(cs).value| == |cs|
    ensures forall i, j :: 0 <= i < j < |cs| ==> Printed(Keys(cs).value[i]) != Printed(Keys(cs).value[j])
  {
    forall i, j | 0 <= i < j < |cs| ensures Printed(Keys(cs).value[i]) != Printed(Keys(cs).value[j]) {
      KeysDiffer(cs, i, j);
    }
  }

  // ----- reordering -----

  /** `p` and `q` are a permutation of the first `n` positions and its inverse. */
  predicate Permutation(p: seq<nat>, q: seq<nat>, n: nat) {
    && |p| == |q| == n
    && (forall i :: 0 <= i < n ==> p[i] < n && q[i] < n)
    && (forall i :: 0 <= i < n ==> q[p[i]] == i && p[q[i]] == i)
  }

  function Rearranged(cs: seq<Node>, p: seq<nat>): (ds: seq<Node>)
    requires forall i :: 0 <= i < |p| ==> p[i] < |cs|
  {
    seq(|p|, i requires 0 <= i < |p| => cs[p[i]])
  }

  lemma RearrangedIsKeyable(cs: seq<Node>, p: seq<nat>, q: seq<nat>)
    requires Permutation(p, q, |cs|) && Keyable(cs)
    ensures Keyable(Rearranged(cs, p))
  {
    var ds := Rearranged(cs, p);
    forall j | 0 <= j < |ds| ensures Acceptable(ds[j]) {
      assert Acceptable(cs[p[j]]);
    }
    forall i, j | 0 <= i < j < |ds| && IsSlide(ds[i]) && IsSlide(ds[j]) ensures ds[i].slideId != ds[j].slideId {
      assert q[p[i]] == i && q[p[j]] == j;
      assert p[i] != p[j];
    }
  }

  /** Main: rearranging the children changes neither whether there are keys nor any slide's key. */
  lemma RearrangingKeepsSlideKeys(cs: seq<Node>, p: seq<nat>, q: seq<nat>)
    requires Permutation(p, q, |cs|)
    ensures Keys(Rearranged(cs, p)).Some? <==> Keys(cs).Some?
    ensures Keys(cs).Some? ==>
      forall j :: 0 <= j < |cs| && IsSlide(cs[p[j]]) ==> Keys(Rearranged(cs, p)).value[j] == Keys(cs).value[p[j]]
  {
    var ds := Rearranged(cs, p);
    if Keyable(cs) {
      RearrangedIsKeyable(cs, p, q);
    }
    if Keyable(ds) {
      RearrangedIsKeyable(ds, q, p);
      assert Rearranged(ds, q) == cs;
    }
  }

  // ----- the pass -----

  /** The backward loop: what the next element after each position is. */
  method NextSlideIds(cs: seq<Node>) returns (next: array<Option<string>>)
    ensures fresh(next) && next.Length == |cs|
    ensures forall j :: 0 <= j < |cs| ==> next[j] == Upcoming(cs, j)
  {
    next := new Option<string>[|cs|];
    var upcoming := None;
    var j := |cs|;
    while 0 < j
      invariant 0 <= j <= |cs|
      invariant upcoming == Upcoming(cs, j)
      invariant forall k :: j <= k < |cs| ==> next[k] == Upcoming(cs, k)
    {
      j := j - 1;
      if cs[j].Element? {
        var t := cs[j].tag;
        upcoming := if !IsAux(t) && !IsControlFlow(t) then cs[j].slideId else None;
      }
      next[j] := upcoming;
    }
  }

  /** Child `j` is acceptable and repeats no slide id from before it. */
  predicate Extends(cs: seq<Node>, j: nat)
    requires j < |cs|
  {
    && Acceptable(cs[j])
    && (IsSlide(cs[j]) ==> forall i :: 0 <= i < j && IsSlide(cs[i]) ==> cs[i].slideId != cs[j].slideId)
  }

  lemma KeyableStep(cs: seq<Node>, j: nat)
    requires j < |cs| && Keyable(cs[..j])
    ensures Keyable(cs) ==> Extends(cs, j)
    ensures Extends(cs, j) ==> Keyable(cs[..j + 1])
  {
    var a, b := cs[..j], cs[..j + 1];
    assert forall i :: 0 <= i < j ==> b[i] == a[i] == cs[i];
    assert b[j] == cs[j];
  }

  /** `seen` is the ids of the slides before `j`. */
  predicate Seen(cs: seq<Node>, j: nat, seen: set<string>)
    requires j <= |cs|
  {
    && (forall v :: v in seen ==> exists k :: 0 <= k < j && IsSlide(cs[k]) && cs[k].slideId == Some(v))
    && (forall k :: 0 <= k < j && IsSlide(cs[k]) && cs[k].slideId.Some? ==> cs[k].slideId.value in seen)
  }

  /** `blanks` counts the blanks before `j` by name. */
  ghost predicate Counted(cs: seq<Node>, j: nat, blanks: map<string, nat>)
    requires j <= |cs|
  {
    forall base :: BlanksBefore(cs, j, base) == if base in blanks then blanks[base] else 0
  }

  predicate Keyed(cs: seq<Node>, j: nat, keys: seq<Key>)
    requires j <= |cs|
  {
    |keys| == j && forall k :: 0 <= k < j ==> Acceptable(cs[k]) && keys[k] == KeyAt(cs, k)
  }

  /** What the forward loop has established before child `j`. */
  ghost predicate Progress(cs: seq<Node>, j: nat, keys: seq<Key>, seen: set<string>, blanks: map<string, nat>) {
    && j <= |cs|
    && Keyable(cs[..j])
    && Keyed(cs, j, keys)
    && Seen(cs, j, seen)
    && Counted(cs, j, blanks)
  }

  lemma CountedOnce(cs: seq<Node>, j: nat, blanks: map<string, nat>, n: nat)
    requires j < |cs| && Counted(cs, j, blanks) && IsBlank(cs[j])
    requires n == BlanksBefore(cs, j, BlankBase(cs, j))
    ensures Counted(cs, j + 1, blanks[BlankBase(cs, j) := n + 1])
  {
    hide BlankBase;
  }

  lemma NotCounted(cs: seq<Node>, j: nat, blanks: map<string, nat>)
    requires j < |cs| && Counted(cs, j, blanks) && !IsBlank(cs[j])
    ensures Counted(cs, j + 1, blanks)
  {
    forall base ensures BlanksBefore(cs, j + 1, base) == if base in blanks then blanks[base] else 0 {
      assert BlanksBefore(cs, j + 1, base) == BlanksBefore(cs, j, base);
    }
  }

  lemma PastBlank(cs: seq<Node>, j: nat, keys: seq<Key>, seen: set<string>, blanks: map<string, nat>, n: nat)
    requires Progress(cs, j, keys, seen, blanks) && j < |cs| && IsBlank(cs[j])
    requires n == if BlankBase(cs, j) in blanks then blanks[BlankBase(cs, j)] else 0
    ensures Progress(cs, j + 1, keys + [Name(CountedName(BlankBase(cs, j), n))], seen, blanks[BlankBase(cs, j) := n + 1])
  {
    hide Keyable, BlankBase, BlanksBefore, CountedName;
    CountedOnce(cs, j, blanks, n);
    KeyableStep(cs, j);
  }

  lemma PastPosition(cs: seq<Node>, j: nat, keys: seq<Key>, seen: set<string>, blanks: map<string, nat>)
    requires Progress(cs, j, keys, seen, blanks) && j < |cs|
    requires cs[j].OtherNode? || (cs[j].Element? && IsAux(cs[j].tag))
    ensures Progress(cs, j + 1, keys + [Index(j)], seen, blanks)
  {
    hide Keyable, Counted;
    NotCounted(cs, j, blanks);
    KeyableStep(cs, j);
  }

  lemma PastSlide(cs: seq<Node>, j: nat, keys: seq<Key>, seen: set<string>, blanks: map<string, nat>, v: string)
    requires Progress(cs, j, keys, seen, blanks) && j < |cs| && IsSlide(cs[j])
    requires cs[j].slideId == Some(v) && IsSlideId(v) && v !in seen
    ensures Progress(cs, j + 1, keys + [Name("omid:" + v)], seen + {v}, blanks)
  {
    hide Keyable, Counted, IsSlideId;
    NotCounted(cs, j, blanks);
    KeyableStep(cs, j);
  }

  /** The three ways to give up are the three ways a list can fail to be keyable. */
  lemma NotKeyable(cs: seq<Node>, j: nat, keys: seq<Key>, seen: set<string>, blanks: map<string, nat>)
    requires Progress(cs, j, keys, seen, blanks) && j < |cs|
    requires match cs[j]
      case TextNode(value) => !AllSpace(value)
      case Element(tag, v) => !IsAux(tag) && (IsControlFlow(tag) || v.None? || !IsSlideId(v.value) || v.value in seen)
      case OtherNode => false
    ensures !Keyable(cs)
  {
    KeyableStep(cs, j);
  }

  lemma AllPassed(cs: seq<Node>, keys: seq<Key>, seen: set<string>, blanks: map<string, nat>)
    requires Progress(cs, |cs|, keys, seen, blanks)
    ensures Keys(cs) == Some(keys)
  {
    assert cs[..|cs|] == cs;
    hide KeyAt, Keyable;
    var all := Keys(cs).value;
    assert forall k :: 0 <= k < |cs| ==> all[k] == KeyAt(cs, k) == keys[k];
    assert all == keys;
  }

  lemma NoEmptySlideId()
    ensures !IsSlideId("")
  {
  }

  method WalkKeys(cs: seq<Node>) returns (result: Option<seq<Key>>)
    ensures result == Keys(cs)
  {
    var next := NextSlideIds(cs);
    var seen: set<string> := {};
    var blanks: map<string, nat> := map[];
    var keys: seq<Key> := [];
    var j := 0;
    while j < |cs|
      invariant 0 <= j <= |cs| == next.Length
      invariant forall k :: 0 <= k < |cs| ==> next[k] == Upcoming(cs, k)
      invariant Progress(cs, j, keys, seen, blanks)
    {
      hide Keyable, Progress, Upcoming, IsSlideId, IsAux, IsControlFlow, AllSpace, Decimal;
      var c := cs[j];
      if c.TextNode? {
        if !AllSpace(c.value) {
          NotKeyable(cs, j, keys, seen, blanks);
          return None;
        }
        var base := "omid-ws:" + if next[j].Some? && next[j].value != "" then next[j].value else "aux";
        var n := if base in blanks then blanks[base] else 0;
        PastBlank(cs, j, keys, seen, blanks, n);
        blanks := blanks[base := n + 1];
        keys := keys + [Name(if n == 0 then base else base + ":" + Decimal(n))];
      } else if c.OtherNode? || IsAux(c.tag) {
        PastPosition(cs, j, keys, seen, blanks);
        keys := keys + [Index(j)];
      } else {
        var v := c.slideId;
        if IsControlFlow(c.tag) || v.None? || v.value == "" || !IsSlideId(v.value) || v.value in seen {
          NoEmptySlideId();
          NotKeyable(cs, j, keys, seen, blanks);
          return None;
        }
        PastSlide(cs, j, keys, seen, blanks, v.value);
        seen := seen + {v.value};
        keys := keys + [Name("omid:" + v.value)];
      }
      j := j + 1;
    }
    AllPassed(cs, keys, seen, blanks);
    return Some(keys);
  }
}
