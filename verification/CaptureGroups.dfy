/** Grouping the images of a slot: the processing variants of one capture belong together. */
module CaptureGroups {
  import opened Text

  /** An image the server lists; `timestamp` is absent when it cannot be read. */
  datatype Image = Image(
    url: string,
    timestamp: Option<int>,
    role: string,
    processing: string,
    imageId: int,
    sessionId: int,
    enhancementType: string,
    ocrResult: string,
    evidenceReason: string)

  datatype Group = Group(
    imageId: int,
    sessionId: int,
    timestamp: Option<int>,
    reason: string,
    ocrResult: string,
    variants: seq<Image>)

  /** An image without an id of its own stays alone. */
  datatype Key = Capture(sessionId: int, imageId: int) | Item(index: nat)

  function KeyAt(images: seq<Image>, i: nat): Key
    requires i < |images|
  {
    if images[i].imageId >= 0 then Capture(images[i].sessionId, images[i].imageId) else Item(i)
  }

  // ---------- one group ----------

  function NewGroup(image: Image): Group {
    Group(image.imageId, image.sessionId, image.timestamp,
          if image.evidenceReason == "" then Upper(image.role) else image.evidenceReason, image.ocrResult, [])
  }

  function Extend(g: Group, image: Image): Group {
    Group(
      g.imageId,
      if g.sessionId <= 0 && image.sessionId > 0 then image.sessionId else g.sessionId,
      if g.timestamp.None? then image.timestamp else g.timestamp,
      if (g.reason == "" || g.reason == "EVIDENCE") && image.evidenceReason != "" then image.evidenceReason else g.reason,
      if g.ocrResult == "" then image.ocrResult else g.ocrResult,
      g.variants + [image])
  }

  /** The group of these variants, in this order. */
  function GroupOf(variants: seq<Image>): Group
    requires variants != []
  {
    if |variants| == 1 then Extend(NewGroup(variants[0]), variants[0])
    else Extend(GroupOf(variants[..|variants| - 1]), variants[|variants| - 1])
  }

  lemma {:induction false} GroupHoldsItsImages(variants: seq<Image>)
    requires variants != []
    ensures GroupOf(variants).variants == variants
  {
    if |variants| > 1 {
      GroupHoldsItsImages(variants[..|variants| - 1]);
    }
  }

  // ---------- which images belong together ----------

  /** The images among the first n with this key, in the order of the list. */
  function Members(images: seq<Image>, n: nat, key: Key): seq<Image>
    requires n <= |images|
  {
    if n == 0 then []
    else Members(images, n - 1, key) + if KeyAt(images, n - 1) == key then [images[n - 1]] else []
  }

  /** The keys among the first n images, each where it first occurs. */
  function Keys(images: seq<Image>, n: nat): (keys: seq<Key>)
    requires n <= |images|
  {
    if n == 0 then []
    else
      var before := Keys(images, n - 1);
      if KeyAt(images, n - 1) in before then before else before + [KeyAt(images, n - 1)]
  }

  predicate Distinct(keys: seq<Key>) {
    forall i, j :: 0 <= i < j < |keys| ==> keys[i] != keys[j]
  }

  /** The group of every image with this key among the first n. */
  ghost predicate IsGroupOf(images: seq<Image>, n: nat, g: Group, key: Key)
    requires n <= |images|
  {
    var members := Members(images, n, key);
    members != [] && g == GroupOf(members)
  }

  /** These groups, in any order, split the first n images by capture: one group per capture,
      holding all of its images in the order of the list. */
  ghost predicate Partitions(images: seq<Image>, n: nat, groups: seq<Group>, keys: seq<Key>)
    requires n <= |images|
  {
    && |keys| == |groups| && Distinct(keys)
    && (forall i :: 0 <= i < n ==> KeyAt(images, i) in keys)
    && (forall j :: 0 <= j < |groups| ==> IsGroupOf(images, n, groups[j], keys[j]))
  }

  // ---------- one more image ----------

  lemma OneMoreMember(images: seq<Image>, n: nat, key: Key)
    requires n < |images|
    ensures Members(images, n + 1, key)
         == if KeyAt(images, n) == key then Members(images, n, key) + [images[n]] else Members(images, n, key)
  {
    assert Members(images, n, key) + [] == Members(images, n, key);
  }

  lemma ExtendsVariants(before: seq<Image>, image: Image)
    requires before != []
    ensures GroupOf(before + [image]) == Extend(GroupOf(before), image)
  {
    assert (before + [image])[..|before|] == before;
  }

  lemma StaysGroup(images: seq<Image>, n: nat, g: Group, key: Key)
    requires n < |images| && IsGroupOf(images, n, g, key) && KeyAt(images, n) != key
    ensures IsGroupOf(images, n + 1, g, key)
  {
    OneMoreMember(images, n, key);
  }

  lemma ExtendsGroup(images: seq<Image>, n: nat, g: Group, key: Key)
    requires n < |images| && IsGroupOf(images, n, g, key) && KeyAt(images, n) == key
    ensures IsGroupOf(images, n + 1, Extend(g, images[n]), key)
  {
    OneMoreMember(images, n, key);
    ExtendsVariants(Members(images, n, key), images[n]);
  }

  lemma {:induction false} NoMembers(images: seq<Image>, n: nat, key: Key)
    requires n <= |images| && forall i :: 0 <= i < n ==> KeyAt(images, i) != key
    ensures Members(images, n, key) == []
  {
    if n > 0 {
      NoMembers(images, n - 1, key);
    }
  }

  lemma StartsGroup(images: seq<Image>, n: nat)
    requires n < |images| && forall i :: 0 <= i < n ==> KeyAt(images, i) != KeyAt(images, n)
    ensures IsGroupOf(images, n + 1, Extend(NewGroup(images[n]), images[n]), KeyAt(images, n))
  {
    NoMembers(images, n, KeyAt(images, n));
    assert Members(images, n + 1, KeyAt(images, n)) == [images[n]];
  }

  /** One more image of a known capture extends its group and no other. */
  lemma KnownKey(images: seq<Image>, n: nat, groups: seq<Group>, keys: seq<Key>, at: nat)
    requires n < |images| && Partitions(images, n, groups, keys)
    requires at < |keys| && keys[at] == KeyAt(images, n)
    ensures Partitions(images, n + 1, groups[at := Extend(groups[at], images[n])], keys)
  {
    var updated := Extend(groups[at], images[n]);
    ExtendsGroup(images, n, groups[at], keys[at]);
    OthersStay(images, n, groups, keys, at, updated);
  }

  lemma OthersStay(images: seq<Image>, n: nat, groups: seq<Group>, keys: seq<Key>, at: nat, updated: Group)
    requires n < |images| && Partitions(images, n, groups, keys)
    requires at < |keys| && keys[at] == KeyAt(images, n) && IsGroupOf(images, n + 1, updated, keys[at])
    ensures Partitions(images, n + 1, groups[at := updated], keys)
  {
    var next := groups[at := updated];
    forall j | 0 <= j < |next|
      ensures IsGroupOf(images, n + 1, next[j], keys[j])
    {
      if j != at {
        StaysGroup(images, n, groups[j], keys[j]);
      }
    }
  }

  /** One more image of a new capture adds a group at the end. */
  lemma NewKey(images: seq<Image>, n: nat, groups: seq<Group>, keys: seq<Key>)
    requires n < |images| && Partitions(images, n, groups, keys) && KeyAt(images, n) !in keys
    ensures Partitions(images, n + 1, groups + [Extend(NewGroup(images[n]), images[n])], keys + [KeyAt(images, n)])
  {
    var next := groups + [Extend(NewGroup(images[n]), images[n])];
    var nextKeys := keys + [KeyAt(images, n)];
    StartsGroup(images, n);
    forall j | 0 <= j < |next|
      ensures IsGroupOf(images, n + 1, next[j], nextKeys[j])
    {
      if j < |groups| {
        StaysGroup(images, n, groups[j], keys[j]);
      }
    }
  }

  /** The table of the groups by key. */
  ghost predicate Indexed(keys: seq<Key>, table: map<Key, nat>) {
    && (forall key <- table :: table[key] < |keys| && keys[table[key]] == key)
    && (forall key <- keys :: key in table)
  }

  lemma IndexedGrows(keys: seq<Key>, table: map<Key, nat>, key: Key)
    requires Indexed(keys, table) && key !in table
    ensures key !in keys && Indexed(keys + [key], table[key := |keys|])
  {
  }

  /** The images split by capture, in the order of their first images. */
  ghost predicate Grouped(images: seq<Image>, groups: seq<Group>) {
    Partitions(images, |images|, groups, Keys(images, |images|))
  }

  /** The grouping itself: one pass over the images with a table of the groups by key. */
  method BuildParkingCaptureGroups(images: seq<Image>) returns (groups: seq<Group>)
    ensures Grouped(images, groups)
  {
    groups := [];
    var groupIndexes: map<Key, nat> := map[];
    for i := 0 to |images|
      invariant Partitions(images, i, groups, Keys(images, i))
      invariant Indexed(Keys(images, i), groupIndexes)
    {
      groups, groupIndexes := AddImage(images, i, groups, groupIndexes);
    }
  }

  /** The body of that loop. */
  method AddImage(images: seq<Image>, i: nat, groups: seq<Group>, table: map<Key, nat>)
    returns (next: seq<Group>, nextTable: map<Key, nat>)
    requires i < |images| && Partitions(images, i, groups, Keys(images, i)) && Indexed(Keys(images, i), table)
    ensures Partitions(images, i + 1, next, Keys(images, i + 1)) && Indexed(Keys(images, i + 1), nextTable)
  {
    var image := images[i];
    var key := KeyAt(images, i);
    ghost var keys := Keys(images, i);
    if key in table {
      var at := table[key];
      KnownKey(images, i, groups, keys, at);
      assert keys[at] in keys && Keys(images, i + 1) == keys;
      next, nextTable := groups[at := Extend(groups[at], image)], table;
    } else {
      IndexedGrows(keys, table, key);
      NewKey(images, i, groups, keys);
      assert Keys(images, i + 1) == keys + [key];
      next, nextTable := groups + [Extend(NewGroup(image), image)], table[key := |groups|];
    }
  }

  // ---------- nothing is lost, whatever the groups are sorted by ----------

  /** A list in another order: position j holds what was at order[j]. */
  ghost predicate IsReordering<T>(before: seq<T>, after: seq<T>, order: seq<nat>) {
    && |before| == |after| == |order|
    && (forall j :: 0 <= j < |order| ==> order[j] < |before| && after[j] == before[order[j]])
    && (forall i, j :: 0 <= i < j < |order| ==> order[i] != order[j])
    && (forall i :: 0 <= i < |before| ==> i in order)
  }

  function Reordered(keys: seq<Key>, order: seq<nat>): (r: seq<Key>)
    requires forall j :: 0 <= j < |order| ==> order[j] < |keys|
    ensures |r| == |order| && forall j :: 0 <= j < |order| ==> r[j] == keys[order[j]]
  {
    seq(|order|, j requires 0 <= j < |order| => keys[order[j]])
  }

  lemma ReorderedKeys(keys: seq<Key>, order: seq<nat>, moved: seq<Key>)
    requires Distinct(keys) && IsReordering(keys, moved, order)
    ensures Distinct(moved) && forall key :: key in keys ==> key in moved
  {
    forall i, j | 0 <= i < j < |moved|
      ensures moved[i] != moved[j]
    {
      assert order[i] != order[j];
    }
    forall key | key in keys
      ensures key in moved
    {
      var k :| 0 <= k < |keys| && keys[k] == key;
      assert k in order;
      var j :| 0 <= j < |order| && order[j] == k;
      assert moved[j] == key;
    }
  }

  /** However the groups are sorted afterwards, they still split the images. */
  lemma SortingKeepsPartition(images: seq<Image>, groups: seq<Group>, keys: seq<Key>,
                              sorted: seq<Group>, order: seq<nat>)
    requires Partitions(images, |images|, groups, keys) && IsReordering(groups, sorted, order)
    ensures Partitions(images, |images|, sorted, Reordered(keys, order))
  {
    var moved := Reordered(keys, order);
    ReorderedKeys(keys, order, moved);
    forall j | 0 <= j < |sorted|
      ensures IsGroupOf(images, |images|, sorted[j], moved[j])
    {
      assert IsGroupOf(images, |images|, groups[order[j]], keys[order[j]]);
    }
  }

  // ---------- every image is in one group ----------

  /** The images that the groups hold, each as often as it is held. */
  function Held(groups: seq<Group>): multiset<Image> {
    if groups == [] then multiset{}
    else Held(groups[..|groups| - 1]) + multiset(groups[|groups| - 1].variants)
  }

  function Total(images: seq<Image>, n: nat, keys: seq<Key>): multiset<Image>
    requires n <= |images|
  {
    if keys == [] then multiset{}
    else Total(images, n, keys[..|keys| - 1]) + multiset(Members(images, n, keys[|keys| - 1]))
  }

  /** The image at i alone, if it has one of these keys. */
  function Own(images: seq<Image>, i: nat, keys: seq<Key>): multiset<Image>
    requires i < |images|
  {
    if KeyAt(images, i) in keys then multiset{images[i]} else multiset{}
  }

  lemma OneMoreHeld(images: seq<Image>, n: nat, key: Key)
    requires n < |images|
    ensures multiset(Members(images, n + 1, key)) == multiset(Members(images, n, key)) + Own(images, n, [key])
  {
    OneMoreMember(images, n, key);
  }

  lemma OwnSplits(images: seq<Image>, i: nat, keys: seq<Key>, last: Key)
    requires i < |images| && last !in keys
    ensures Own(images, i, keys + [last]) == Own(images, i, keys) + Own(images, i, [last])
  {
  }

  lemma {:induction false} TotalGrows(images: seq<Image>, n: nat, keys: seq<Key>)
    requires n < |images| && Distinct(keys)
    ensures Total(images, n + 1, keys) == Total(images, n, keys) + Own(images, n, keys)
  {
    if keys != [] {
      var rest, last := keys[..|keys| - 1], keys[|keys| - 1];
      assert keys == rest + [last] && last !in rest;
      var before, own := Total(images, n, rest), Own(images, n, rest);
      var members, mine := multiset(Members(images, n, last)), Own(images, n, [last]);
      TotalGrows(images, n, rest);
      OneMoreHeld(images, n, last);
      OwnSplits(images, n, rest, last);
      Shuffled(before, own, members, mine);
    }
  }

  lemma Shuffled(a: multiset<Image>, b: multiset<Image>, c: multiset<Image>, d: multiset<Image>)
    ensures (a + b) + (c + d) == (a + c) + (b + d)
  {
  }

  lemma {:induction false} TotalOfNothing(images: seq<Image>, keys: seq<Key>)
    ensures Total(images, 0, keys) == multiset{} == multiset(images[..0])
  {
    assert images[..0] == [];
    if keys != [] {
      TotalOfNothing(images, keys[..|keys| - 1]);
    }
  }

  lemma OwnImage(images: seq<Image>, i: nat, keys: seq<Key>)
    requires i < |images| && KeyAt(images, i) in keys
    ensures Own(images, i, keys) == multiset{images[i]}
  {
  }

  lemma OneMoreImage(images: seq<Image>, n: nat)
    requires n < |images|
    ensures multiset(images[..n + 1]) == multiset(images[..n]) + multiset{images[n]}
  {
    assert images[..n + 1] == images[..n] + [images[n]];
  }

  lemma {:induction false} TotalIsAll(images: seq<Image>, n: nat, keys: seq<Key>)
    requires n <= |images| && Distinct(keys)
    requires forall i :: 0 <= i < n ==> KeyAt(images, i) in keys
    ensures Total(images, n, keys) == multiset(images[..n])
  {
    if n == 0 {
      TotalOfNothing(images, keys);
    } else {
      TotalIsAll(images, n - 1, keys);
      OneMoreTotal(images, n - 1, keys);
    }
  }

  lemma OneMoreTotal(images: seq<Image>, n: nat, keys: seq<Key>)
    requires n < |images| && Distinct(keys) && KeyAt(images, n) in keys
    requires Total(images, n, keys) == multiset(images[..n])
    ensures Total(images, n + 1, keys) == multiset(images[..n + 1])
  {
    TotalGrows(images, n, keys);
    OneMoreImage(images, n);
    OwnImage(images, n, keys);
  }

  lemma {:induction false} HeldIsTotal(images: seq<Image>, groups: seq<Group>, keys: seq<Key>)
    requires |keys| == |groups|
    requires forall j :: 0 <= j < |groups| ==> groups[j].variants == Members(images, |images|, keys[j])
    ensures Held(groups) == Total(images, |images|, keys)
  {
    if groups != [] {
      HeldIsTotal(images, groups[..|groups| - 1], keys[..|keys| - 1]);
    }
  }

  lemma GroupsHoldMembers(images: seq<Image>, groups: seq<Group>, keys: seq<Key>)
    requires Partitions(images, |images|, groups, keys)
    ensures forall j :: 0 <= j < |groups| ==> groups[j].variants == Members(images, |images|, keys[j])
  {
    forall j | 0 <= j < |groups|
      ensures groups[j].variants == Members(images, |images|, keys[j])
    {
      assert IsGroupOf(images, |images|, groups[j], keys[j]);
      GroupHoldsItsImages(Members(images, |images|, keys[j]));
    }
  }

  /** No image is dropped, none is made up and none is shown twice: together the groups hold the images. */
  lemma NoImageIsLost(images: seq<Image>, groups: seq<Group>, keys: seq<Key>)
    requires Partitions(images, |images|, groups, keys)
    ensures Held(groups) == multiset(images)
  {
    GroupsHoldMembers(images, groups, keys);
    HeldIsTotal(images, groups, keys);
    TotalIsAll(images, |images|, keys);
    assert images[..|images|] == images;
  }

  /** The images among the first n that are assigned to group j, in the order of the list. */
  function Assigned(images: seq<Image>, home: seq<nat>, n: nat, j: nat): seq<Image>
    requires n <= |images| == |home|
  {
    if n == 0 then []
    else Assigned(images, home, n - 1, j) + if home[n - 1] == j then [images[n - 1]] else []
  }

  /** Each image has one group, and each group holds exactly its images. */
  ghost predicate Houses(images: seq<Image>, groups: seq<Group>, home: seq<nat>) {
    && |home| == |images|
    && (forall i :: 0 <= i < |images| ==> home[i] < |groups|)
    && (forall j :: 0 <= j < |groups| ==> groups[j].variants == Assigned(images, home, |images|, j))
  }

  predicate SameCapture(a: Image, b: Image) {
    a.imageId >= 0 && b.imageId == a.imageId && b.sessionId == a.sessionId
  }

  /** Two images share a home exactly when both have an id, the same one, in the same session. */
  ghost predicate SharedByCapture(images: seq<Image>, home: seq<nat>)
    requires |home| == |images|
  {
    forall a, b :: 0 <= a < b < |images| ==> (home[a] == home[b] <==> SameCapture(images[a], images[b]))
  }

  ghost function HomeAt(images: seq<Image>, keys: seq<Key>, i: nat): (j: nat)
    requires i < |images| && KeyAt(images, i) in keys
    ensures j < |keys| && keys[j] == KeyAt(images, i)
  {
    var j: nat :| j < |keys| && keys[j] == KeyAt(images, i);
    j
  }

  lemma {:induction false} AssignedAreMembers(images: seq<Image>, keys: seq<Key>, home: seq<nat>, n: nat, j: nat)
    requires n <= |images| == |home| && Distinct(keys) && j < |keys|
    requires forall i :: 0 <= i < |images| ==> home[i] < |keys| && keys[home[i]] == KeyAt(images, i)
    ensures Assigned(images, home, n, j) == Members(images, n, keys[j])
  {
    if n > 0 {
      AssignedAreMembers(images, keys, home, n - 1, j);
      assert home[n - 1] == j <==> KeyAt(images, n - 1) == keys[j];
    }
  }

  lemma KeysShareByCapture(images: seq<Image>, keys: seq<Key>, home: seq<nat>)
    requires |home| == |images| && Distinct(keys)
    requires forall i :: 0 <= i < |images| ==> home[i] < |keys| && keys[home[i]] == KeyAt(images, i)
    ensures SharedByCapture(images, home)
  {
    forall a, b | 0 <= a < b < |images|
      ensures home[a] == home[b] <==> SameCapture(images[a], images[b])
    {
      assert home[a] == home[b] <==> KeyAt(images, a) == KeyAt(images, b);
    }
  }

  /** The groups, in whatever order, house the images, and two images share a group exactly when both
      have an id, the same one, in the same session. */
  lemma SameGroupIff(images: seq<Image>, groups: seq<Group>, keys: seq<Key>)
    requires Partitions(images, |images|, groups, keys)
    ensures exists home: seq<nat> :: Houses(images, groups, home) && SharedByCapture(images, home)
  {
    var home: seq<nat> := seq(|images|, i requires 0 <= i < |images| && KeyAt(images, i) in keys => HomeAt(images, keys, i));
    GroupsHoldMembers(images, groups, keys);
    forall j | 0 <= j < |groups|
      ensures groups[j].variants == Assigned(images, home, |images|, j)
    {
      AssignedAreMembers(images, keys, home, |images|, j);
    }
    KeysShareByCapture(images, keys, home);
    assert Houses(images, groups, home) && SharedByCapture(images, home);
  }

  // ---------- what a group reports ----------

  lemma {:induction false} MembersShareKey(images: seq<Image>, n: nat, key: Key)
    requires n <= |images| && key.Capture?
    ensures forall v <- Members(images, n, key) :: v.imageId == key.imageId && v.sessionId == key.sessionId
  {
    if n > 0 {
      MembersShareKey(images, n - 1, key);
    }
  }

  lemma {:induction false} ItemIsAlone(images: seq<Image>, n: nat, key: Key)
    requires n <= |images| && key.Item?
    ensures Members(images, n, key) == []
            || (key.index < n && Members(images, n, key) == [images[key.index]])
  {
    if n > 0 {
      ItemIsAlone(images, n - 1, key);
    }
  }

  lemma {:induction false} IdentityOfGroup(variants: seq<Image>, imageId: int, sessionId: int)
    requires variants != []
    requires forall v <- variants :: v.imageId == imageId && v.sessionId == sessionId
    ensures GroupOf(variants).imageId == imageId && GroupOf(variants).sessionId == sessionId
  {
    assert variants[|variants| - 1] in variants;
    if |variants| > 1 {
      IdentityOfGroup(variants[..|variants| - 1], imageId, sessionId);
    }
  }

  /** A group carries the image id and the session of every image it holds. */
  lemma GroupKeepsIdentity(images: seq<Image>, groups: seq<Group>, keys: seq<Key>, j: nat)
    requires Partitions(images, |images|, groups, keys) && j < |groups|
    ensures groups[j].variants != []
    ensures forall v <- groups[j].variants :: v.imageId == groups[j].imageId && v.sessionId == groups[j].sessionId
  {
    var members := Members(images, |images|, keys[j]);
    assert IsGroupOf(images, |images|, groups[j], keys[j]);
    GroupsHoldMembers(images, groups, keys);
    if keys[j].Capture? {
      MembersShareKey(images, |images|, keys[j]);
    } else {
      ItemIsAlone(images, |images|, keys[j]);
    }
    IdentityOfGroup(members, members[0].imageId, members[0].sessionId);
  }

  /** A group reports the first timestamp that any of its variants has. */
  lemma {:induction false} GroupReportsFirstTime(variants: seq<Image>, k: nat)
    requires k < |variants| && forall i :: 0 <= i < k ==> variants[i].timestamp.None?
    requires variants[k].timestamp.Some? || k == |variants| - 1
    ensures GroupOf(variants).timestamp == variants[k].timestamp
  {
    var n := |variants| - 1;
    if n > 0 {
      GroupReportsFirstTime(variants[..n], if k < n then k else n - 1);
    }
  }

  /** And the first text that was recognised in any of them. */
  lemma {:induction false} GroupReportsFirstText(variants: seq<Image>, k: nat)
    requires k < |variants| && forall i :: 0 <= i < k ==> variants[i].ocrResult == ""
    requires variants[k].ocrResult != "" || k == |variants| - 1
    ensures GroupOf(variants).ocrResult == variants[k].ocrResult
  {
    var n := |variants| - 1;
    if n > 0 {
      GroupReportsFirstText(variants[..n], if k < n then k else n - 1);
    }
  }

  predicate IsVague(reason: string) {
    reason == "" || reason == "EVIDENCE"
  }

  /** A definite reason of the first image stays; otherwise the first definite reason counts. */
  lemma {:induction false} GroupReportsReason(variants: seq<Image>, k: nat)
    requires k < |variants|
    ensures !IsVague(NewGroup(variants[0]).reason) ==> GroupOf(variants).reason == NewGroup(variants[0]).reason
    ensures IsVague(NewGroup(variants[0]).reason)
            && (forall i :: 0 <= i < k ==> IsVague(variants[i].evidenceReason)) && !IsVague(variants[k].evidenceReason)
            ==> GroupOf(variants).reason == variants[k].evidenceReason
    ensures IsVague(NewGroup(variants[0]).reason)
            && (forall i :: 0 <= i < |variants| ==> IsVague(variants[i].evidenceReason))
            ==> IsVague(GroupOf(variants).reason)
  {
    var n := |variants| - 1;
    if n > 0 {
      GroupReportsReason(variants[..n], if k < n then k else 0);
      assert forall i :: 0 <= i < n ==> variants[..n][i] == variants[i];
    }
  }

  // ---------- the order of the groups ----------

  /** The comparison the groups are sorted by. */
  predicate Earlier(l: Group, r: Group) {
    if l.timestamp.Some? != r.timestamp.Some? then l.timestamp.Some?
    else if l.timestamp.Some? && l.timestamp != r.timestamp then l.timestamp.value < r.timestamp.value
    else 0 <= l.imageId < r.imageId
  }

  predicate Incomparable(l: Group, r: Group) {
    !Earlier(l, r) && !Earlier(r, l)
  }

  /** What a sort demands of its comparison: a strict order whose ties can be chained. */
  ghost predicate StrictWeakOrder(groups: seq<Group>) {
    && (forall a <- groups :: !Earlier(a, a))
    && (forall a <- groups, b <- groups, c <- groups :: Earlier(a, b) && Earlier(b, c) ==> Earlier(a, c))
    && (forall a <- groups, b <- groups, c <- groups :: Incomparable(a, b) && Incomparable(b, c) ==> Incomparable(a, c))
  }

  predicate Tied(a: Group, b: Group, c: Group) {
    a.timestamp == b.timestamp == c.timestamp
  }

  /** No group without an id shares its time with two groups of different ids. */
  ghost predicate IdsAmongTies(groups: seq<Group>) {
    forall a <- groups, b <- groups, c <- groups ::
      Tied(a, b, c) && 0 <= a.imageId < b.imageId ==> c.imageId >= 0
  }

  lemma EarlierIsTransitive(a: Group, b: Group, c: Group)
    requires Earlier(a, b) && Earlier(b, c)
    ensures Earlier(a, c)
  {
  }

  lemma TiesChain(a: Group, b: Group, c: Group)
    requires Incomparable(a, b) && Incomparable(b, c)
    ensures Incomparable(a, c) <==> !(Tied(a, b, c) && b.imageId < 0 && 0 <= a.imageId && 0 <= c.imageId && a.imageId != c.imageId)
  {
  }

  /** The comparison is fit for sorting exactly when no group without an id shares its time with two
      groups of different ids. */
  lemma FitForSorting(groups: seq<Group>)
    ensures StrictWeakOrder(groups) <==> IdsAmongTies(groups)
  {
    forall a <- groups, b <- groups, c <- groups
      ensures Earlier(a, b) && Earlier(b, c) ==> Earlier(a, c)
      ensures Incomparable(a, b) && Incomparable(b, c) ==>
                (Incomparable(a, c)
                 <==> !(Tied(a, b, c) && b.imageId < 0 && 0 <= a.imageId && 0 <= c.imageId && a.imageId != c.imageId))
    {
      if Earlier(a, b) && Earlier(b, c) {
        EarlierIsTransitive(a, b, c);
      }
      if Incomparable(a, b) && Incomparable(b, c) {
        TiesChain(a, b, c);
      }
    }
    if !IdsAmongTies(groups) {
      var a, b, c :| a in groups && b in groups && c in groups
                     && Tied(a, b, c) && 0 <= a.imageId < b.imageId && c.imageId < 0;
      assert Incomparable(a, c) && Incomparable(c, b) && !Incomparable(a, b);
    }
  }

  /** No group comes before one that compares as earlier. */
  ghost predicate IsSorted(groups: seq<Group>) {
    forall i, j :: 0 <= i < j < |groups| ==> !Earlier(groups[j], groups[i])
  }

  /** Groups sorted by the comparison are in the order of their times, those without a time at the end, and
      groups of one time in the order of their ids. */
  lemma SortedIsChronological(groups: seq<Group>, i: nat, j: nat)
    requires IsSorted(groups) && i < j < |groups|
    ensures groups[j].timestamp.Some? ==>
              groups[i].timestamp.Some? && groups[i].timestamp.value <= groups[j].timestamp.value
    ensures groups[i].timestamp == groups[j].timestamp && groups[i].imageId >= 0 && groups[j].imageId >= 0 ==>
              groups[i].imageId <= groups[j].imageId
  {
    assert !Earlier(groups[j], groups[i]);
  }

  // ---------- picking a variant ----------

  predicate IsProcessing(image: Image, processing: string) {
    Upper(image.processing) == Upper(processing)
  }

  /** The first image with this processing. */
  function FirstProcessed(variants: seq<Image>, processing: string): Option<Image> {
    if variants == [] then None
    else if IsProcessing(variants[0], processing) then Some(variants[0])
    else FirstProcessed(variants[1..], processing)
  }

  function Preferred(g: Group): Option<Image> {
    match FirstProcessed(g.variants, "ORIGINAL")
    case Some(image) => Some(image)
    case None => if g.variants == [] then None else Some(g.variants[0])
  }

  lemma {:induction false} FirstProcessedAt(variants: seq<Image>, processing: string, k: nat)
    requires k <= |variants|
    requires forall i :: 0 <= i < k ==> !IsProcessing(variants[i], processing)
    requires k < |variants| ==> IsProcessing(variants[k], processing)
    ensures FirstProcessed(variants, processing) == if k < |variants| then Some(variants[k]) else None
  {
    if k > 0 {
      FirstProcessedAt(variants[1..], processing, k - 1);
    }
  }

  method ParkingCaptureVariant(g: Group, processing: string) returns (found: Option<Image>)
    ensures found == FirstProcessed(g.variants, processing)
    ensures found.Some? ==> found.value in g.variants && IsProcessing(found.value, processing)
    ensures found.None? ==> forall v <- g.variants :: !IsProcessing(v, processing)
  {
    for i := 0 to |g.variants|
      invariant forall k :: 0 <= k < i ==> !IsProcessing(g.variants[k], processing)
    {
      if IsProcessing(g.variants[i], processing) {
        FirstProcessedAt(g.variants, processing, i);
        return Some(g.variants[i]);
      }
    }
    FirstProcessedAt(g.variants, processing, |g.variants|);
    return None;
  }

  /** The unprocessed image when there is one, otherwise the first. */
  method PreferredParkingCaptureVariant(g: Group) returns (found: Option<Image>)
    ensures found == Preferred(g)
    ensures found.Some? <==> g.variants != []
    ensures found.Some? && !IsProcessing(found.value, "ORIGINAL")
            ==> found.value == g.variants[0] && forall v <- g.variants :: !IsProcessing(v, "ORIGINAL")
  {
    found := ParkingCaptureVariant(g, "ORIGINAL");
    if found.None? && g.variants != [] {
      found := Some(g.variants[0]);
    }
  }
}
