/** `oskar_SettingsModel`: the tree of settings behind the settings editor.
    Every item has a full key, a short key (one path segment), a type, a row
    of column values and an ordered list of children.  The items live in an
    arena `seq<Item>`; item 0 is the root and a child's position in the arena
    is always after its parent's.  A `ModelIndex` names a child by its row
    under a parent, a column and the item itself, as Qt's model indexes do. */
module Settings {

  /** A column value: empty (an invalid `QVariant`) or a string. */
  datatype Value = Null | Text(s: string)

  /** `OSKAR_SETTINGS_CAPTION_ONLY` or any other type code. */
  datatype ItemType = CaptionOnly | Typed(code: int)

  datatype Item = Item(key: string, keyShort: string, itemType: ItemType, data: seq<Value>,
                       children: seq<nat>)

  /** An invalid index, or (row, column, item). */
  datatype ModelIndex = NoIndex | Index(row: int, column: int, item: nat)

  datatype Role = DisplayRole | EditRole | OtherRole(code: int)

  datatype ItemFlag = ItemIsEditable | ItemIsEnabled | ItemIsSelectable

  // ---------------------------------------------------------------------
  // Keys: '/'-separated paths, split keeping empty segments.

  /** `QString::split('/')`: the segments between the separators, empty
      ones included, so there is always at least one. */
  function Split(s: string): (parts: seq<string>)
    ensures |parts| >= 1
    ensures forall i :: 0 <= i < |parts| ==> '/' !in parts[i]
  {
    if s == [] then [""]
    else
      var rest := Split(s[1..]);
      if s[0] == '/' then [""] + rest else [[s[0]] + rest[0]] + rest[1..]
  }

  /** The inverse of `Split`: the segments joined with '/'. */
  function Join(parts: seq<string>): string
    requires |parts| >= 1
  {
    if |parts| == 1 then parts[0] else parts[0] + "/" + Join(parts[1..])
  }

  /** Splitting and joining again gives the key back. */
  lemma {:induction false} JoinSplit(s: string)
    ensures Join(Split(s)) == s
  {
    if s != [] {
      var rest := Split(s[1..]);
      JoinSplit(s[1..]);
      if s[0] == '/' {
        assert ([""] + rest)[1..] == rest;
      } else if |rest| > 1 {
        var parts := [[s[0]] + rest[0]] + rest[1..];
        assert parts[1..] == rest[1..];
        assert Join(rest) == rest[0] + "/" + Join(rest[1..]);
        assert [s[0]] + s[1..] == s;
      } else {
        assert [s[0]] + s[1..] == s;
      }
    }
  }

  /** A segment without a separator in front of a key extends its first segment. */
  lemma {:induction false} SplitPrefix(a: string, s: string)
    requires '/' !in a
    ensures Split(a + s) == [a + Split(s)[0]] + Split(s)[1..]
  {
    if a != [] {
      assert (a + s)[0] == a[0] && (a + s)[1..] == a[1..] + s;
      SplitPrefix(a[1..], s);
      assert [a[0]] + (a[1..] + Split(s)[0]) == a + Split(s)[0];
    } else {
      var t := Split(s);
      assert a + s == s && a + t[0] == t[0];
      assert t == [t[0]] + t[1..];
    }
  }

  /** Joining segments without separators and splitting again gives the segments back. */
  lemma {:induction false} SplitJoin(parts: seq<string>)
    requires |parts| >= 1
    requires forall i :: 0 <= i < |parts| ==> '/' !in parts[i]
    ensures Split(Join(parts)) == parts
  {
    if |parts| == 1 {
      SplitPrefix(parts[0], "");
      assert parts[0] + "" == parts[0];
    } else {
      var tail := Join(parts[1..]);
      SplitJoin(parts[1..]);
      assert Split("/" + tail) == [""] + Split(tail) by {
        assert ("/" + tail)[1..] == tail;
      }
      assert parts[0] + "/" + tail == parts[0] + ("/" + tail);
      SplitPrefix(parts[0], "/" + tail);
      assert parts[0] + "" == parts[0];
      assert parts == [parts[0]] + parts[1..];
    }
  }

  // ---------------------------------------------------------------------
  // The arena of items.

  /** Item 0 exists and every child comes after its parent. */
  ghost predicate WellFormed(items: seq<Item>) {
    && |items| > 0
    && forall i, j :: 0 <= i < |items| && 0 <= j < |items[i].children| ==>
         i < items[i].children[j] < |items|
  }

  /** `getItem`: a valid index names its item; an invalid one the root. */
  function ItemOf(items: seq<Item>, index: ModelIndex): (q: nat)
    requires |items| > 0
    ensures q < |items|
    ensures index.Index? && index.item < |items| ==> q == index.item
    ensures !index.Index? ==> q == 0
  {
    if index.Index? && index.item < |items| then index.item else 0
  }

  /** The column of an index; an invalid `QModelIndex` reports column -1. */
  function ColumnOf(index: ModelIndex): int {
    if index.Index? then index.column else -1
  }

  /** `index(row, column, parent)`: the row-th child of the parent item, or
      an invalid index when the parent names a column other than 0 or the
      row does not exist. */
  function IndexOf(items: seq<Item>, row: int, column: int, parent: ModelIndex): (r: ModelIndex)
    requires WellFormed(items)
    ensures r.Index? <==>
              !(parent.Index? && parent.column != 0)
              && 0 <= row < |items[ItemOf(items, parent)].children|
    ensures r.Index? ==>
              r.row == row && r.column == column
              && r.item == items[ItemOf(items, parent)].children[row]
  {
    if parent.Index? && parent.column != 0 then NoIndex
    else
      var cs := items[ItemOf(items, parent)].children;
      if 0 <= row < |cs| then Index(row, column, cs[row]) else NoIndex
  }

  /** The position among `cs` of the first item whose short key is `seg`, or -1. */
  function FindIn(items: seq<Item>, cs: seq<nat>, seg: string): (r: int)
    requires forall j :: 0 <= j < |cs| ==> cs[j] < |items|
    ensures -1 <= r < |cs|
    ensures r >= 0 ==> items[cs[r]].keyShort == seg
    ensures r >= 0 ==> forall j :: 0 <= j < r ==> items[cs[j]].keyShort != seg
    ensures r == -1 <==> forall j :: 0 <= j < |cs| ==> items[cs[j]].keyShort != seg
  {
    if cs == [] then -1
    else if items[cs[0]].keyShort == seg then 0
    else
      var r := FindIn(items, cs[1..], seg);
      if r < 0 then -1 else r + 1
  }

  /** The row of the first child of item p whose short key is `seg`, or -1. */
  function FindChild(items: seq<Item>, p: nat, seg: string): int
    requires WellFormed(items) && p < |items|
  {
    FindIn(items, items[p].children, seg)
  }

  /** `getChild(keyShort, parent)`: the index of that first child, or an invalid index. */
  function GetChildSpec(items: seq<Item>, parent: ModelIndex, seg: string): ModelIndex
    requires WellFormed(items)
  {
    var r := FindChild(items, ItemOf(items, parent), seg);
    if r < 0 then NoIndex else IndexOf(items, r, 0, parent)
  }

  /** Two items agree on everything but their children. */
  predicate SameEntry(a: Item, b: Item) {
    a.key == b.key && a.keyShort == b.keyShort && a.itemType == b.itemType && a.data == b.data
  }

  /** `b` extends `a`: the old items keep their short keys, and those before
      `bound` also keep their children. */
  ghost predicate Shape(a: seq<Item>, b: seq<Item>, bound: int) {
    && |a| <= |b|
    && (forall q :: 0 <= q < |a| ==> b[q].keyShort == a[q].keyShort)
    && (forall q :: 0 <= q < |a| && q < bound ==> b[q].children == a[q].children)
  }

  /** `b` keeps every entry of `a` apart from the children lists. */
  ghost predicate Entries(a: seq<Item>, b: seq<Item>) {
    |a| <= |b| && forall q :: 0 <= q < |a| ==> SameEntry(b[q], a[q])
  }

  /** `appendChild`: `it` becomes the last child of item p. */
  function AppendChild(items: seq<Item>, p: nat, it: Item): (r: seq<Item>)
    requires WellFormed(items) && p < |items| && it.children == []
    ensures WellFormed(r)
    ensures |r| == |items| + 1 && r[|items|] == it
    ensures r[p].children == items[p].children + [|items|]
    ensures forall q :: 0 <= q < |items| && q != p ==> r[q] == items[q]
    ensures Entries(items, r) && Shape(items, r, p)
  {
    items[p := items[p].(children := items[p].children + [|items|])] + [it]
  }

  /** `SettingsItem::data(column)`: the column's value, empty out of range. */
  function ItemData(it: Item, column: int): Value {
    if 0 <= column < |it.data| then it.data[column] else Null
  }

  /** `SettingsItem::setData(column, value)`: stores the value when the
      column exists and reports whether it did. */
  function SetItemData(items: seq<Item>, q: nat, column: int, value: Value): (r: (bool, seq<Item>))
    requires WellFormed(items) && q < |items|
    ensures WellFormed(r.1) && Shape(items, r.1, |items|) && |r.1| == |items|
    ensures r.0 <==> 0 <= column < |items[q].data|
    ensures r.0 ==> ItemData(r.1[q], column) == value
    ensures r.0 ==> r.1[q] == items[q].(data := items[q].data[column := value])
    ensures forall k :: 0 <= k < |items| && k != q ==> r.1[k] == items[k]
    ensures !r.0 ==> r.1 == items
  {
    if 0 <= column < |items[q].data| then
      (true, items[q := items[q].(data := items[q].data[column := value])])
    else (false, items)
  }

  /** The width of the data rows `registerSetting` builds: the root's
      column count, but at least 2. */
  function Columns(items: seq<Item>): (w: nat)
    requires |items| > 0
    ensures w >= 2
  {
    if |items[0].data| <= 2 then 2 else |items[0].data|
  }

  /** A data row with `v` in column 0 and the other columns empty. */
  function Row(v: Value, w: nat): (r: seq<Value>)
    requires w >= 1
    ensures |r| == w && r[0] == v
  {
    [v] + seq(w - 1, _ => Null)
  }

  /** A group created on the way to a setting. */
  function GroupItem(key: string, seg: string, w: nat): Item
    requires w >= 1
  {
    Item(key, seg, CaptionOnly, Row(Text(seg), w), [])
  }

  /** A parent the walk can stand on: the root, or a column-0 index of an item. */
  predicate ValidParent(items: seq<Item>, parent: ModelIndex) {
    parent == NoIndex || (parent.Index? && parent.column == 0 && parent.item < |items|)
  }

  /** Appends a caption-only group under the parent and returns the new
      group's index, `index(rowCount(parent) - 1, 0, parent)`. */
  function AppendGroup(items: seq<Item>, parent: ModelIndex, key: string, seg: string, w: nat)
    : (r: (seq<Item>, ModelIndex))
    requires WellFormed(items) && ValidParent(items, parent) && w >= 1
    ensures ValidParent(r.0, r.1) && r.1.Index? && r.1.item == |items|
    ensures r.0 == AppendChild(items, ItemOf(items, parent), GroupItem(key, seg, w))
  {
    var items1 := AppendChild(items, ItemOf(items, parent), GroupItem(key, seg, w));
    (items1, IndexOf(items1, |items1[ItemOf(items1, parent)].children| - 1, 0, parent))
  }

  /** The walk over the group segments of a key: each segment reuses the
      first child with that short key or appends a caption-only group,
      which then becomes the parent. */
  function Walk(items: seq<Item>, parent: ModelIndex, key: string, segs: seq<string>, w: nat)
    : (r: (seq<Item>, ModelIndex))
    requires WellFormed(items) && ValidParent(items, parent) && w >= 1
    ensures WellFormed(r.0) && ValidParent(r.0, r.1) && |items| <= |r.0|
    decreases |segs|
  {
    if segs == [] then (items, parent)
    else
      var child := GetChildSpec(items, parent, segs[0]);
      if child.Index? then Walk(items, child, key, segs[1..], w)
      else
        var (items1, next) := AppendGroup(items, parent, key, segs[0], w);
        Walk(items1, next, key, segs[1..], w)
  }

  /** The item reached from `start` by following, segment by segment, the
      first child with that short key; -1 when a segment is missing. */
  function Resolve(items: seq<Item>, start: nat, segs: seq<string>): (r: int)
    requires WellFormed(items) && start < |items|
    ensures r == -1 || start <= r < |items|
    ensures segs != [] && r >= 0 ==> start < r
    decreases |segs|
  {
    if segs == [] then start
    else
      var j := FindChild(items, start, segs[0]);
      if j < 0 then -1 else Resolve(items, items[start].children[j], segs[1..])
  }

  /** The group segments of a key: all but the last. */
  function Groups(key: string): seq<string> {
    var keys := Split(key);
    keys[..|keys| - 1]
  }

  /** The last segment of a key: the short key of its leaf. */
  function LeafKey(key: string): string {
    var keys := Split(key);
    keys[|keys| - 1]
  }

  /** A key is its groups followed by its leaf segment. */
  lemma KeyParts(key: string)
    ensures Split(key) == Groups(key) + [LeafKey(key)]
  {
    var keys := Split(key);
    assert keys == keys[..|keys| - 1] + [keys[|keys| - 1]];
  }

  /** The segment walk both `registerSetting` and `setCaption` begin with,
      from the root, with rows of the root's width. */
  function Prepare(items: seq<Item>, key: string): (r: (seq<Item>, ModelIndex))
    requires WellFormed(items)
    ensures WellFormed(r.0) && ValidParent(r.0, r.1) && |items| <= |r.0|
  {
    Walk(items, NoIndex, key, Groups(key), Columns(items))
  }

  /** `registerSetting(key, caption, type)` on the arena. */
  function Register(items: seq<Item>, key: string, caption: string, itemType: ItemType): seq<Item>
    requires WellFormed(items)
  {
    var (walked, p) := Prepare(items, key);
    AppendChild(walked, ItemOf(walked, p), Item(key, LeafKey(key), itemType, Row(Text(caption), Columns(items)), []))
  }

  /** `setCaption(key, caption)` on the arena: the same walk, then column 0
      of the existing leaf is set, or a caption-only leaf is appended. */
  function Caption(items: seq<Item>, key: string, caption: string): seq<Item>
    requires WellFormed(items)
  {
    var (walked, p) := Prepare(items, key);
    var child := GetChildSpec(walked, p, LeafKey(key));
    if child.Index? then SetItemData(walked, child.item, 0, Text(caption)).1
    else AppendChild(walked, ItemOf(walked, p), Item(key, LeafKey(key), CaptionOnly, Row(Text(caption), Columns(items)), []))
  }

  /** `flags(index)`. */
  function Flags(items: seq<Item>, index: ModelIndex): (f: set<ItemFlag>)
    requires WellFormed(items)
    ensures !index.Index? <==> f == {}
    ensures index.Index? ==> ItemIsEnabled in f && ItemIsSelectable in f
    ensures ItemIsEditable in f <==>
              index.Index? && index.column != 0 && items[ItemOf(items, index)].itemType != CaptionOnly
  {
    if !index.Index? then {}
    else if index.column == 0 || items[ItemOf(items, index)].itemType == CaptionOnly then
      {ItemIsEnabled, ItemIsSelectable}
    else {ItemIsEditable, ItemIsEnabled, ItemIsSelectable}
  }

  /** `data(index, role)`. */
  function Data(items: seq<Item>, index: ModelIndex, role: Role): (v: Value)
    requires WellFormed(items)
    ensures v != Null ==> index.Index? && (role == DisplayRole || role == EditRole)
  {
    if !index.Index? then Null
    else if role != DisplayRole && role != EditRole then Null
    else ItemData(items[ItemOf(items, index)], index.column)
  }

  // ---------------------------------------------------------------------
  // Properties.

  /** The first match depends only on the short keys of the candidates. */
  lemma {:induction false} FindInFrame(a: seq<Item>, b: seq<Item>, cs: seq<nat>, seg: string)
    requires |a| <= |b|
    requires forall j :: 0 <= j < |cs| ==> cs[j] < |a|
    requires forall j :: 0 <= j < |cs| ==> b[cs[j]].keyShort == a[cs[j]].keyShort
    ensures FindIn(b, cs, seg) == FindIn(a, cs, seg)
  {
    if cs != [] {
      FindInFrame(a, b, cs[1..], seg);
    }
  }

  /** An earlier match hides a candidate appended later; with no earlier
      match, a matching candidate appended last is found at the end. */
  lemma FindInExtend(items: seq<Item>, cs: seq<nat>, n: nat, seg: string)
    requires forall j :: 0 <= j < |cs| ==> cs[j] < |items|
    requires n < |items|
    ensures FindIn(items, cs, seg) >= 0 ==> FindIn(items, cs + [n], seg) == FindIn(items, cs, seg)
    ensures FindIn(items, cs, seg) == -1 && items[n].keyShort == seg ==> FindIn(items, cs + [n], seg) == |cs|
  {
    var ext := cs + [n];
    assert forall j :: 0 <= j < |cs| ==> ext[j] == cs[j];
    assert ext[|cs|] == n;
  }

  /** Resolving a path only looks at short keys and at the children of the
      items strictly before its end. */
  lemma {:induction false} ResolveFrame(a: seq<Item>, b: seq<Item>, start: nat, segs: seq<string>)
    requires WellFormed(a) && WellFormed(b) && start < |a|
    requires Resolve(a, start, segs) >= 0
    requires Shape(a, b, Resolve(a, start, segs))
    ensures Resolve(b, start, segs) == Resolve(a, start, segs)
    decreases |segs|
  {
    if segs != [] {
      var cs := a[start].children;
      assert b[start].children == cs;
      FindInFrame(a, b, cs, segs[0]);
      var j := FindChild(a, start, segs[0]);
      ResolveFrame(a, b, cs[j], segs[1..]);
    }
  }

  /** Resolving one more segment is one more `getChild` step. */
  lemma {:induction false} ResolveSnoc(items: seq<Item>, start: nat, segs: seq<string>, last: string)
    requires WellFormed(items) && start < |items|
    ensures var g := Resolve(items, start, segs);
            Resolve(items, start, segs + [last]) ==
              if g < 0 then -1
              else if FindChild(items, g, last) < 0 then -1
              else items[g].children[FindChild(items, g, last)]
    decreases |segs|
  {
    if segs == [] {
      assert [] + [last] == [last];
      assert [last][1..] == [];
    } else {
      assert (segs + [last])[0] == segs[0] && (segs + [last])[1..] == segs[1..] + [last];
      var j := FindChild(items, start, segs[0]);
      if j >= 0 {
        ResolveSnoc(items, items[start].children[j], segs[1..], last);
      }
    }
  }

  /** An item the walk over `segs` creates: a caption-only group holding
      the full key, one of the segments as its short key, and that segment
      in column 0 of an otherwise empty row. */
  predicate NewGroup(it: Item, key: string, segs: seq<string>, w: nat) {
    w >= 1 && it.key == key && it.itemType == CaptionOnly && it.keyShort in segs
    && it.data == Row(Text(it.keyShort), w)
  }

  /** The walk extends the arena without touching the items before its
      starting parent or any existing entry, only ever appends children,
      and creates only new groups. */
  ghost predicate WalkKeeps(items: seq<Item>, parent: ModelIndex, key: string, segs: seq<string>, w: nat)
    requires WellFormed(items) && ValidParent(items, parent) && w >= 1
  {
    var b := Walk(items, parent, key, segs, w).0;
    && Shape(items, b, ItemOf(items, parent))
    && Entries(items, b)
    && (forall q :: 0 <= q < |items| ==> items[q].children <= b[q].children)
    && forall q :: |items| <= q < |b| ==> NewGroup(b[q], key, segs, w)
  }

  /** Frame of a walk step that reuses an existing child. */
  lemma WalkFrameFound(items: seq<Item>, parent: ModelIndex, key: string, segs: seq<string>, w: nat)
    requires WellFormed(items) && ValidParent(items, parent) && w >= 1 && segs != []
    requires GetChildSpec(items, parent, segs[0]).Index?
    requires WalkKeeps(items, GetChildSpec(items, parent, segs[0]), key, segs[1..], w)
    ensures WalkKeeps(items, parent, key, segs, w)
  {
    var child := GetChildSpec(items, parent, segs[0]);
    var b := Walk(items, parent, key, segs, w).0;
    assert b == Walk(items, child, key, segs[1..], w).0;
    forall q | |items| <= q < |b|
      ensures NewGroup(b[q], key, segs, w)
    {
      assert NewGroup(b[q], key, segs[1..], w);
    }
  }

  /** Frame of a walk step that appends a group. */
  lemma WalkFrameAppended(items: seq<Item>, parent: ModelIndex, key: string, segs: seq<string>, w: nat)
    requires WellFormed(items) && ValidParent(items, parent) && w >= 1 && segs != []
    requires !GetChildSpec(items, parent, segs[0]).Index?
    requires var (items1, next) := AppendGroup(items, parent, key, segs[0], w);
             WalkKeeps(items1, next, key, segs[1..], w)
    ensures WalkKeeps(items, parent, key, segs, w)
  {
    var (items1, next) := AppendGroup(items, parent, key, segs[0], w);
    var b := Walk(items, parent, key, segs, w).0;
    assert b == Walk(items1, next, key, segs[1..], w).0;
    forall q | 0 <= q < |items|
      ensures items[q].children <= b[q].children
    {
      assert items[q].children <= items1[q].children;
    }
    forall q | |items| <= q < |b|
      ensures NewGroup(b[q], key, segs, w)
    {
      if q > |items| {
        assert NewGroup(b[q], key, segs[1..], w);
      } else {
        assert SameEntry(b[q], items1[q]);
      }
    }
  }

  /** By induction over the segments, every walk keeps the arena as
      `WalkKeeps` says. */
  lemma {:induction false} WalkFrame(items: seq<Item>, parent: ModelIndex, key: string, segs: seq<string>, w: nat)
    requires WellFormed(items) && ValidParent(items, parent) && w >= 1
    ensures WalkKeeps(items, parent, key, segs, w)
    decreases |segs|
  {
    if segs != [] {
      var child := GetChildSpec(items, parent, segs[0]);
      if child.Index? {
        WalkFrame(items, child, key, segs[1..], w);
        WalkFrameFound(items, parent, key, segs, w);
      } else {
        var (items1, next) := AppendGroup(items, parent, key, segs[0], w);
        WalkFrame(items1, next, key, segs[1..], w);
        WalkFrameAppended(items, parent, key, segs, w);
      }
    }
  }

  /** When the whole path already exists below the starting parent, the
      walk reuses an existing child at every segment: it creates nothing and
      ends at the item the path resolves to. */
  lemma {:induction false} WalkExisting(items: seq<Item>, parent: ModelIndex, key: string, segs: seq<string>,
                                        w: nat)
    requires WellFormed(items) && ValidParent(items, parent) && w >= 1
    requires Resolve(items, ItemOf(items, parent), segs) >= 0
    ensures Walk(items, parent, key, segs, w).0 == items
    ensures ItemOf(items, Walk(items, parent, key, segs, w).1) == Resolve(items, ItemOf(items, parent), segs)
    decreases |segs|
  {
    if segs != [] {
      var child := GetChildSpec(items, parent, segs[0]);
      assert child.Index?;
      WalkExisting(items, child, key, segs[1..], w);
    }
  }

  /** Walk step when the first segment already names a child. */
  lemma WalkResolvesFound(items: seq<Item>, parent: ModelIndex, key: string, segs: seq<string>, w: nat)
    requires WellFormed(items) && ValidParent(items, parent) && w >= 1 && segs != []
    requires GetChildSpec(items, parent, segs[0]).Index?
    requires var child := GetChildSpec(items, parent, segs[0]);
             var r := Walk(items, child, key, segs[1..], w);
             Resolve(r.0, child.item, segs[1..]) == ItemOf(r.0, r.1)
    ensures var r := Walk(items, parent, key, segs, w);
            Resolve(r.0, ItemOf(items, parent), segs) == ItemOf(r.0, r.1)
  {
    var start := ItemOf(items, parent);
    var child := GetChildSpec(items, parent, segs[0]);
    var b := Walk(items, child, key, segs[1..], w).0;
    WalkFrame(items, child, key, segs[1..], w);
    FindInFrame(items, b, items[start].children, segs[0]);
    assert b[start].children == items[start].children;
  }

  /** After a group `n` was appended under `start` for a segment no child
      had, and the arena was extended further without touching `start`,
      `getChild` at `start` finds that group. */
  lemma AppendedGroupFound(items: seq<Item>, items1: seq<Item>, b: seq<Item>, start: nat, seg: string)
    requires WellFormed(items) && WellFormed(items1) && WellFormed(b) && start < |items|
    requires FindChild(items, start, seg) == -1
    requires Entries(items, items1) && |items1| == |items| + 1 && items1[|items|].keyShort == seg
    requires items1[start].children == items[start].children + [|items|]
    requires Shape(items1, b, |items|)
    ensures FindChild(b, start, seg) == |items[start].children|
    ensures b[start].children[|items[start].children|] == |items|
  {
    var n := |items|;
    var cs := items[start].children;
    FindInFrame(items, items1, cs, seg);
    FindInExtend(items1, cs, n, seg);
    FindInFrame(items1, b, cs + [n], seg);
    assert b[start].children == cs + [n];
  }

  /** Walk step when the first segment is missing and a group is appended. */
  lemma WalkResolvesAppended(items: seq<Item>, parent: ModelIndex, key: string, segs: seq<string>, w: nat)
    requires WellFormed(items) && ValidParent(items, parent) && w >= 1 && segs != []
    requires !GetChildSpec(items, parent, segs[0]).Index?
    requires var (items1, next) := AppendGroup(items, parent, key, segs[0], w);
             var r := Walk(items1, next, key, segs[1..], w);
             Resolve(r.0, |items|, segs[1..]) == ItemOf(r.0, r.1)
    ensures var r := Walk(items, parent, key, segs, w);
            Resolve(r.0, ItemOf(items, parent), segs) == ItemOf(r.0, r.1)
  {
    var start := ItemOf(items, parent);
    var (items1, next) := AppendGroup(items, parent, key, segs[0], w);
    var r := Walk(items1, next, key, segs[1..], w);
    assert r == Walk(items, parent, key, segs, w);
    WalkFrame(items1, next, key, segs[1..], w);
    AppendedGroupFound(items, items1, r.0, start, segs[0]);
  }

  /** The path of segments, resolved from the walk's starting parent, ends
      at the parent the walk returns. */
  lemma {:induction false} WalkResolves(items: seq<Item>, parent: ModelIndex, key: string, segs: seq<string>,
                                        w: nat)
    requires WellFormed(items) && ValidParent(items, parent) && w >= 1
    ensures var r := Walk(items, parent, key, segs, w);
            Resolve(r.0, ItemOf(items, parent), segs) == ItemOf(r.0, r.1)
    decreases |segs|
  {
    if segs != [] {
      var child := GetChildSpec(items, parent, segs[0]);
      if child.Index? {
        WalkResolves(items, child, key, segs[1..], w);
        WalkResolvesFound(items, parent, key, segs, w);
      } else {
        var (items1, next) := AppendGroup(items, parent, key, segs[0], w);
        WalkResolves(items1, next, key, segs[1..], w);
        WalkResolvesAppended(items, parent, key, segs, w);
      }
    }
  }

  /** After the walk, the full key resolves to the child `getChild` finds
      for the leaf segment, if any. */
  lemma PreparedResolves(items: seq<Item>, key: string, walked: seq<Item>, p: ModelIndex)
    requires WellFormed(items)
    requires (walked, p) == Prepare(items, key)
    ensures WellFormed(walked)
    ensures var child := GetChildSpec(walked, p, LeafKey(key));
            child.Index? ==> Resolve(walked, 0, Groups(key) + [LeafKey(key)]) == child.item
    ensures Resolve(walked, 0, Groups(key)) == ItemOf(walked, p)
  {
    WalkResolves(items, NoIndex, key, Groups(key), Columns(items));
    ResolveSnoc(walked, 0, Groups(key), LeafKey(key));
  }

  /** `registerSetting` appends the leaf, holding the caption in column 0
      and the given type, as the last child of the group its path resolves to. */
  lemma RegisterAppendsLeaf(items: seq<Item>, key: string, caption: string, itemType: ItemType,
                            walked: seq<Item>, p: ModelIndex)
    requires WellFormed(items)
    requires (walked, p) == Prepare(items, key)
    ensures var g := ItemOf(walked, p);
            var r := Register(items, key, caption, itemType);
            && WellFormed(r)
            && |r| == |walked| + 1
            && r[|walked|] == Item(key, LeafKey(key), itemType, Row(Text(caption), Columns(items)), [])
            && Resolve(r, 0, Groups(key)) == g
            && r[g].children == walked[g].children + [|walked|]
  {
    var g := ItemOf(walked, p);
    var r := AppendChild(walked, g, Item(key, LeafKey(key), itemType, Row(Text(caption), Columns(items)), []));
    assert r == Register(items, key, caption, itemType);
    PreparedResolves(items, key, walked, p);
    ResolveFrame(walked, r, 0, Groups(key));
  }

  /** `registerSetting` keeps every existing entry, and every item it
      creates holds the full key. */
  lemma RegisterKeepsEntries(items: seq<Item>, key: string, caption: string, itemType: ItemType)
    requires WellFormed(items)
    ensures var r := Register(items, key, caption, itemType);
            && Entries(items, r)
            && forall q :: |items| <= q < |r| ==> r[q].key == key
  {
    var (walked, p) := Prepare(items, key);
    var g := ItemOf(walked, p);
    var r := AppendChild(walked, g, Item(key, LeafKey(key), itemType, Row(Text(caption), Columns(items)), []));
    assert r == Register(items, key, caption, itemType);
    WalkFrame(items, NoIndex, key, Groups(key), Columns(items));
    forall q | |items| <= q < |r|
      ensures r[q].key == key
    {
      if q < |walked| {
        assert NewGroup(walked[q], key, Groups(key), Columns(items));
      }
    }
  }

  /** Registering a key whose leaf segment already names a child of its
      group appends a second child, but `getChild` still finds the first:
      the duplicate is shadowed. */
  lemma RegisterShadowsDuplicate(items: seq<Item>, key: string, caption: string, itemType: ItemType,
                                 walked: seq<Item>, p: ModelIndex)
    requires WellFormed(items)
    requires (walked, p) == Prepare(items, key)
    requires FindChild(walked, ItemOf(walked, p), LeafKey(key)) >= 0
    ensures var g := ItemOf(walked, p);
            var r := Register(items, key, caption, itemType);
            && |r[g].children| == |walked[g].children| + 1
            && FindChild(r, g, LeafKey(key)) == FindChild(walked, g, LeafKey(key))
  {
    var g := ItemOf(walked, p);
    var r := AppendChild(walked, g, Item(key, LeafKey(key), itemType, Row(Text(caption), Columns(items)), []));
    assert r == Register(items, key, caption, itemType);
    var cs := walked[g].children;
    FindInFrame(walked, r, cs, LeafKey(key));
    FindInExtend(r, cs, |walked|, LeafKey(key));
  }

  /** `setCaption` when the leaf exists: the full key resolves to it and
      only its column 0 changes, to the caption. */
  lemma CaptionExisting(items: seq<Item>, key: string, caption: string, walked: seq<Item>, p: ModelIndex)
    requires WellFormed(items)
    requires (walked, p) == Prepare(items, key)
    requires GetChildSpec(walked, p, LeafKey(key)).Index?
    ensures var r := Caption(items, key, caption);
            var c := Resolve(r, 0, Split(key));
            && c == Resolve(walked, 0, Split(key))
            && 0 <= c < |walked| == |r|
            && r[c].data == (if |walked[c].data| > 0 then walked[c].data[0 := Text(caption)] else walked[c].data)
            && forall q :: 0 <= q < |walked| && q != c ==> r[q] == walked[q]
  {
    var child := GetChildSpec(walked, p, LeafKey(key));
    var r := SetItemData(walked, child.item, 0, Text(caption)).1;
    assert r == Caption(items, key, caption);
    PreparedResolves(items, key, walked, p);
    KeyParts(key);
    ResolveFrame(walked, r, 0, Split(key));
  }

  /** `setCaption` on a key that already names an item: the arena keeps its
      size, the key still resolves to that item, and only its column 0
      changes, to the caption. */
  lemma CaptionKnownKey(items: seq<Item>, key: string, caption: string)
    requires WellFormed(items)
    requires Resolve(items, 0, Split(key)) >= 0
    ensures var r := Caption(items, key, caption);
            var c := Resolve(items, 0, Split(key));
            && |r| == |items|
            && Resolve(r, 0, Split(key)) == c
            && r[c].data == (if |items[c].data| > 0 then items[c].data[0 := Text(caption)] else items[c].data)
            && forall q :: 0 <= q < |items| && q != c ==> r[q] == items[q]
  {
    var (walked, p) := Prepare(items, key);
    KnownKeyWalk(items, key, walked, p);
    CaptionExisting(items, key, caption, walked, p);
  }

  /** The walk for a key that already names an item creates nothing and
      leaves `getChild` able to find the leaf. */
  lemma KnownKeyWalk(items: seq<Item>, key: string, walked: seq<Item>, p: ModelIndex)
    requires WellFormed(items)
    requires Resolve(items, 0, Split(key)) >= 0
    requires (walked, p) == Prepare(items, key)
    ensures walked == items
    ensures GetChildSpec(walked, p, LeafKey(key)).Index?
  {
    KeyParts(key);
    ResolveSnoc(items, 0, Groups(key), LeafKey(key));
    WalkExisting(items, NoIndex, key, Groups(key), Columns(items));
  }

  /** `setCaption` when the leaf is missing: a caption-only leaf is appended
      where the full key now resolves, and no index makes it editable. */
  lemma CaptionAppended(items: seq<Item>, key: string, caption: string, walked: seq<Item>, p: ModelIndex)
    requires WellFormed(items)
    requires (walked, p) == Prepare(items, key)
    requires !GetChildSpec(walked, p, LeafKey(key)).Index?
    ensures var r := Caption(items, key, caption);
            && |r| == |walked| + 1
            && Resolve(r, 0, Split(key)) == |walked|
            && r[|walked|] == Item(key, LeafKey(key), CaptionOnly, Row(Text(caption), Columns(items)), [])
            && forall index :: ItemOf(r, index) == |walked| ==> ItemIsEditable !in Flags(r, index)
  {
    var groups := Groups(key);
    var last := LeafKey(key);
    var g := ItemOf(walked, p);
    var r := AppendChild(walked, g, Item(key, last, CaptionOnly, Row(Text(caption), Columns(items)), []));
    assert r == Caption(items, key, caption);
    PreparedResolves(items, key, walked, p);
    ResolveFrame(walked, r, 0, groups);
    var cs := walked[g].children;
    FindInFrame(walked, r, cs, last);
    FindInExtend(r, cs, |walked|, last);
    ResolveSnoc(r, 0, groups, last);
    KeyParts(key);
  }

  /** The groups a walk creates are caption-only, so no index makes them editable. */
  lemma WalkGroupsNotEditable(items: seq<Item>, parent: ModelIndex, key: string, segs: seq<string>, w: nat,
                              index: ModelIndex)
    requires WellFormed(items) && ValidParent(items, parent) && w >= 1
    requires |items| <= ItemOf(Walk(items, parent, key, segs, w).0, index)
    ensures ItemIsEditable !in Flags(Walk(items, parent, key, segs, w).0, index)
  {
    WalkFrame(items, parent, key, segs, w);
  }

  /** `setData` followed by `data` in the edit or display role gives the value back. */
  lemma SetDataThenData(items: seq<Item>, index: ModelIndex, value: Value, role: Role)
    requires WellFormed(items) && index.Index? && index.item < |items|
    requires role == DisplayRole || role == EditRole
    requires SetItemData(items, index.item, index.column, value).0
    ensures Data(SetItemData(items, index.item, index.column, value).1, index, role) == value
  {
  }

  // ---------------------------------------------------------------------
  // The model object.

  /** The settings model: the item arena behind a Qt item model. */
  class SettingsModel {
    var items: seq<Item>

    ghost predicate Valid()
      reads this
    {
      WellFormed(items)
    }

    /** A model holding only the root, whose columns are headed "Setting" and "Value". */
    constructor ()
      ensures Valid()
      ensures items == [Item("", "", Typed(0), [Text("Setting"), Text("Value")], [])]
    {
      items := [Item("", "", Typed(0), [Text("Setting"), Text("Value")], [])];
    }

    /** `rowCount(parent)`. */
    function RowCount(parent: ModelIndex): (n: nat)
      reads this
      requires Valid()
      ensures !(parent.Index? && parent.column != 0) ==>
                forall row :: IndexOf(items, row, 0, parent).Index? <==> 0 <= row < n
    {
      |items[ItemOf(items, parent)].children|
    }

    /** `append`: one new item as the last child of the parent's item, whose
        earlier children stay in place. */
    method Append(key: string, keyShort: string, itemType: ItemType, data: seq<Value>, parent: ModelIndex)
      requires Valid()
      modifies this
      ensures Valid()
      ensures items == AppendChild(old(items), ItemOf(old(items), parent), Item(key, keyShort, itemType, data, []))
      ensures items[ItemOf(old(items), parent)].children ==
                old(items[ItemOf(items, parent)].children) + [old(|items|)]
    {
      var p := ItemOf(items, parent);
      items := AppendChild(items, p, Item(key, keyShort, itemType, data, []));
    }

    /** `getChild`: a linear search of the parent's children, in row order. */
    method GetChild(keyShort: string, parent: ModelIndex) returns (r: ModelIndex)
      requires Valid()
      ensures r == GetChildSpec(items, parent, keyShort)
    {
      var cs := items[ItemOf(items, parent)].children;
      var i := 0;
      while i < |cs|
        invariant 0 <= i <= |cs|
        invariant forall j :: 0 <= j < i ==> items[cs[j]].keyShort != keyShort
      {
        if items[cs[i]].keyShort == keyShort {
          return IndexOf(items, i, 0, parent);
        }
        i := i + 1;
      }
      return NoIndex;
    }

    /** One pass of the loop below: reuse the first child named `segs[0]`
        or append a caption-only group with that name, and descend into it. */
    method Descend(key: string, segs: seq<string>, w: nat, parent: ModelIndex) returns (next: ModelIndex)
      requires Valid() && ValidParent(items, parent) && w >= 1 && segs != []
      modifies this
      ensures Valid() && ValidParent(items, next)
      ensures Walk(old(items), parent, key, segs, w) == Walk(items, next, key, segs[1..], w)
    {
      var child := GetChild(segs[0], parent);
      if child.Index? {
        next := child;
      } else {
        Append(key, segs[0], CaptionOnly, Row(Text(segs[0]), w), parent);
        next := IndexOf(items, RowCount(parent) - 1, 0, parent);
        assert (items, next) == AppendGroup(old(items), parent, key, segs[0], w);
      }
    }

    /** The loop `registerSetting` and `setCaption` share: descend through
        the group segments of a key, appending a caption-only group for
        each one that is missing. */
    method WalkGroups(key: string, groups: seq<string>, w: nat) returns (parent: ModelIndex)
      requires Valid() && w >= 1
      modifies this
      ensures Valid() && ValidParent(items, parent)
      ensures (items, parent) == Walk(old(items), NoIndex, key, groups, w)
    {
      parent := NoIndex;
      var k := 0;
      while k < |groups|
        invariant 0 <= k <= |groups|
        invariant Valid() && ValidParent(items, parent)
        invariant Walk(old(items), NoIndex, key, groups, w) == Walk(items, parent, key, groups[k..], w)
      {
        assert groups[k..][1..] == groups[k + 1..];
        parent := Descend(key, groups[k..], w, parent);
        k := k + 1;
      }
      assert groups[k..] == [];
    }

    /** `registerSetting(key, caption, type, options)`. */
    method RegisterSetting(key: string, caption: string, itemType: ItemType)
      requires Valid()
      modifies this
      ensures Valid()
      ensures items == Register(old(items), key, caption, itemType)
    {
      var keys := Split(key);
      var w := Columns(items);
      var parent := WalkGroups(key, keys[..|keys| - 1], w);
      Append(key, keys[|keys| - 1], itemType, Row(Text(caption), w), parent);
    }

    /** `setCaption(key, caption)`. */
    method SetCaption(key: string, caption: string)
      requires Valid()
      modifies this
      ensures Valid()
      ensures items == Caption(old(items), key, caption)
    {
      var keys := Split(key);
      var w := Columns(items);
      var parent := WalkGroups(key, keys[..|keys| - 1], w);
      var child := GetChild(keys[|keys| - 1], parent);
      if child.Index? {
        var ok := SetData(IndexOf(items, child.row, 0, parent), Text(caption), EditRole);
      } else {
        Append(key, keys[|keys| - 1], CaptionOnly, Row(Text(caption), w), parent);
      }
    }

    /** `setData(index, value, role)`: only the edit role writes. */
    method SetData(index: ModelIndex, value: Value, role: Role) returns (ok: bool)
      requires Valid()
      modifies this
      ensures Valid()
      ensures role != EditRole ==> !ok && items == old(items)
      ensures role == EditRole ==>
                (ok, items) == SetItemData(old(items), ItemOf(old(items), index), ColumnOf(index), value)
    {
      if role != EditRole {
        return false;
      }
      var q := ItemOf(items, index);
      var result := SetItemData(items, q, ColumnOf(index), value);
      ok, items := result.0, result.1;
    }
  }
}
