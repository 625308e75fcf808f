/**
 * The contact picker's view model: contacts bucketed by the uppercase
 * initial of their name, buckets ordered by initial with "#" last, lookups
 * by id and by index path, the paged friend fetch and the group lists.
 *
 * The pinyin initial of a name is a parameter (`initial`); the server is a
 * list the pages are cut from.
 */
module Contacts {
  import opened Opt

  datatype ContactType = Undefine | Friends | Members | Groups | Staff

  datatype ContactKind = UserContact | GroupContact

  datatype ContactInfo = ContactInfo(
    id: string,
    name: Option<string>,
    faceURL: Option<string>,
    sub: Option<string>,
    kind: ContactKind)

  // ----------------------------------------------------------- key order

  /** Lexicographic order on strings by character code. */
  predicate StrLess(a: string, b: string)
    decreases |a|
  {
    |b| > 0 && (|a| == 0 || a[0] < b[0] || (a[0] == b[0] && StrLess(a[1..], b[1..])))
  }

  lemma {:induction false} StrLessIsStrictTotalOrder(a: string, b: string, c: string)
    ensures !StrLess(a, a)
    ensures StrLess(a, b) && StrLess(b, c) ==> StrLess(a, c)
    ensures a != b ==> StrLess(a, b) || StrLess(b, a)
    ensures !(StrLess(a, b) && StrLess(b, a))
    decreases |a|
  {
    if |a| > 0 && |b| > 0 && |c| > 0 {
      StrLessIsStrictTotalOrder(a[1..], b[1..], c[1..]);
      if a != b && a[0] == b[0] {
        assert a == [a[0]] + a[1..] && b == [b[0]] + b[1..];
      }
    } else if |a| > 0 && |b| > 0 {
      StrLessIsStrictTotalOrder(a[1..], b[1..], b[1..]);
      if a != b && a[0] == b[0] {
        assert a == [a[0]] + a[1..] && b == [b[0]] + b[1..];
      }
    } else if |a| > 0 {
      StrLessIsStrictTotalOrder(a[1..], a[1..], a[1..]);
    }
  }

  /** The comparator of `divideContactsInSection`: "#" after every other key, otherwise `<`. */
  predicate KeyBefore(a: string, b: string) {
    if a == "#" then false
    else if b == "#" then true
    else StrLess(a, b)
  }

  lemma KeyBeforeIsStrictTotalOrder(a: string, b: string, c: string)
    ensures !KeyBefore(a, a)
    ensures KeyBefore(a, b) && KeyBefore(b, c) ==> KeyBefore(a, c)
    ensures a != b ==> KeyBefore(a, b) || KeyBefore(b, a)
    ensures !(KeyBefore(a, b) && KeyBefore(b, a))
  {
    StrLessIsStrictTotalOrder(a, b, c);
  }

  predicate SortedKeys(s: seq<string>) {
    forall i, j :: 0 <= i < j < |s| ==> KeyBefore(s[i], s[j])
  }

  /** Inserts `k` in front of the first key it comes before. */
  function InsertKey(sorted: seq<string>, k: string): (r: seq<string>)
    requires SortedKeys(sorted) && k !in sorted
    ensures SortedKeys(r) && |r| == |sorted| + 1
    ensures forall x :: x in r <==> x in sorted || x == k
  {
    if |sorted| == 0 then [k]
    else if KeyBefore(k, sorted[0]) then
      forall j | 0 < j < |sorted| {
        KeyBeforeIsStrictTotalOrder(k, sorted[0], sorted[j]);
      }
      [k] + sorted
    else
      var rest := InsertKey(sorted[1..], k);
      KeyBeforeIsStrictTotalOrder(k, sorted[0], k);
      assert forall x :: x in rest ==> KeyBefore(sorted[0], x) by {
        forall x | x in rest
          ensures KeyBefore(sorted[0], x)
        {
          if x != k {
            var j :| 0 <= j < |sorted[1..]| && sorted[1..][j] == x;
            assert sorted[j + 1] == x;
          }
        }
      }
      [sorted[0]] + rest
  }

  /** `keys.sorted(by:)` for distinct keys. */
  function SortKeys(keys: seq<string>): (r: seq<string>)
    requires forall i, j :: 0 <= i < j < |keys| ==> keys[i] != keys[j]
    ensures SortedKeys(r) && |r| == |keys|
    ensures forall x :: x in r <==> x in keys
  {
    if |keys| == 0 then []
    else
      var n := |keys| - 1;
      var prefix := SortKeys(keys[..n]);
      assert keys[n] !in keys[..n];
      InsertKey(prefix, keys[n])
  }

  // ------------------------------------------------------------- sections

  /** The section key of a contact: the initial of its name, if it has one. */
  function LetterOf(c: ContactInfo, initial: string -> Option<string>): Option<string> {
    if c.name.None? then None else initial(c.name.value)
  }

  /** The contacts filed under `key`, in input order. */
  function Bucket(cs: seq<ContactInfo>, key: string, initial: string -> Option<string>): (b: seq<ContactInfo>)
    ensures forall c :: c in b ==> c in cs && LetterOf(c, initial) == Some(key)
    ensures |b| <= |cs|
  {
    if |cs| == 0 then []
    else
      var n := |cs| - 1;
      Bucket(cs[..n], key, initial) + (if LetterOf(cs[n], initial) == Some(key) then [cs[n]] else [])
  }

  /** The keys that occur: the initials of the contacts that have one. */
  function Keys(cs: seq<ContactInfo>, initial: string -> Option<string>): set<string> {
    set i | 0 <= i < |cs| && LetterOf(cs[i], initial).Some? :: LetterOf(cs[i], initial).value
  }

  /**
   * `letters` and `sections` are what `divideContactsInSection(cs)` shows:
   * the keys in order, each once, and under each key its contacts in input order.
   */
  ghost predicate Sectioned(cs: seq<ContactInfo>, initial: string -> Option<string>,
                            letters: seq<string>, sections: seq<seq<ContactInfo>>) {
    SortedKeys(letters) &&
    (forall k :: k in letters <==> k in Keys(cs, initial)) &&
    |sections| == |letters| &&
    forall i :: 0 <= i < |letters| ==> sections[i] == Bucket(cs, letters[i], initial)
  }

  /**
   * Every contact with an initial is in the section of that initial, and no
   * section holds a contact without one.
   */
  lemma SectionedFilesEveryContact(cs: seq<ContactInfo>, initial: string -> Option<string>,
                                   letters: seq<string>, sections: seq<seq<ContactInfo>>, k: nat)
    requires Sectioned(cs, initial, letters, sections) && k < |cs|
    ensures LetterOf(cs[k], initial).Some? ==>
      exists i :: 0 <= i < |letters| && letters[i] == LetterOf(cs[k], initial).value && cs[k] in sections[i]
    ensures LetterOf(cs[k], initial).None? ==> forall i :: 0 <= i < |sections| ==> cs[k] !in sections[i]
  {
    if LetterOf(cs[k], initial).Some? {
      var key := LetterOf(cs[k], initial).value;
      assert key in Keys(cs, initial);
      var i :| 0 <= i < |letters| && letters[i] == key;
      BucketHoldsMatches(cs, key, initial, k);
    }
  }

  lemma {:induction false} BucketHoldsMatches(cs: seq<ContactInfo>, key: string,
                                              initial: string -> Option<string>, k: nat)
    requires k < |cs| && LetterOf(cs[k], initial) == Some(key)
    ensures cs[k] in Bucket(cs, key, initial)
  {
    var n := |cs| - 1;
    if k < n {
      BucketHoldsMatches(cs[..n], key, initial, k);
    }
  }

  /** Sectioning is determined by the contacts: two sectionings of the same list agree. */
  lemma SectionedIsUnique(cs: seq<ContactInfo>, initial: string -> Option<string>,
                          l1: seq<string>, s1: seq<seq<ContactInfo>>,
                          l2: seq<string>, s2: seq<seq<ContactInfo>>)
    requires Sectioned(cs, initial, l1, s1) && Sectioned(cs, initial, l2, s2)
    ensures l1 == l2 && s1 == s2
  {
    SortedWithSameKeysAreEqual(l1, l2);
  }

  lemma {:induction false} SortedWithSameKeysAreEqual(a: seq<string>, b: seq<string>)
    requires SortedKeys(a) && SortedKeys(b)
    requires forall k :: k in a <==> k in b
    ensures a == b
    decreases |a|
  {
    if |a| > 0 {
      assert a[0] in b;
    }
    if |b| > 0 {
      assert b[0] in a;
    }
    if |a| > 0 && |b| > 0 {
      if a[0] != b[0] {
        var i :| 0 <= i < |b| && b[i] == a[0];
        var j :| 0 <= j < |a| && a[j] == b[0];
        assert KeyBefore(b[0], a[0]) && KeyBefore(a[0], b[0]);
        KeyBeforeIsStrictTotalOrder(a[0], b[0], a[0]);
        assert false;
      }
      TailMembers(a);
      TailMembers(b);
      SortedWithSameKeysAreEqual(a[1..], b[1..]);
      assert a == [a[0]] + a[1..] && b == [b[0]] + b[1..];
    }
  }

  /** The keys after the first of a sorted list are the others. */
  lemma TailMembers(a: seq<string>)
    requires SortedKeys(a) && |a| > 0
    ensures forall k :: k in a[1..] <==> k in a && k != a[0]
  {
    forall k
      ensures k in a[1..] <==> k in a && k != a[0]
    {
      if k in a[1..] {
        var i :| 0 <= i < |a[1..]| && a[1..][i] == k;
        assert KeyBefore(a[0], a[i + 1]);
        KeyBeforeIsStrictTotalOrder(a[0], a[0], a[0]);
      }
      if k in a && k != a[0] {
        var i :| 0 <= i < |a| && a[i] == k;
        assert a[1..][i - 1] == k;
      }
    }
  }

  /** A friend as the server's friend list returns it. */
  datatype FriendInfo = FriendInfo(userID: string, nickname: Option<string>, faceURL: Option<string>)

  /** A joined group. */
  datatype GroupInfo = GroupInfo(groupID: string, groupName: Option<string>, faceURL: Option<string>)

  /** A member of a group. */
  datatype GroupMemberInfo = GroupMemberInfo(
    userID: string, nickname: Option<string>, faceURL: Option<string>,
    roleLevelString: Option<string>, isSelf: bool)

  function FriendContacts(fs: seq<FriendInfo>): (cs: seq<ContactInfo>)
    ensures |cs| == |fs|
    ensures forall i :: 0 <= i < |fs| ==> cs[i].id == fs[i].userID && cs[i].name == fs[i].nickname && cs[i].kind == UserContact
  {
    seq(|fs|, i requires 0 <= i < |fs| => ContactInfo(fs[i].userID, fs[i].nickname, fs[i].faceURL, None, UserContact))
  }

  function GroupContacts(gs: seq<GroupInfo>): (cs: seq<ContactInfo>)
    ensures |cs| == |gs|
    ensures forall i :: 0 <= i < |gs| ==> cs[i].id == gs[i].groupID && cs[i].name == gs[i].groupName && cs[i].kind == GroupContact
  {
    seq(|gs|, i requires 0 <= i < |gs| => ContactInfo(gs[i].groupID, gs[i].groupName, gs[i].faceURL, None, GroupContact))
  }

  /** The members other than the current user, in order. */
  function OtherMembers(ms: seq<GroupMemberInfo>): (r: seq<GroupMemberInfo>)
    ensures forall m :: m in r <==> m in ms && !m.isSelf
  {
    if |ms| == 0 then []
    else
      var n := |ms| - 1;
      assert ms == ms[..n] + [ms[n]];
      OtherMembers(ms[..n]) + (if ms[n].isSelf then [] else [ms[n]])
  }

  /** `compactMap` dropping the current user. */
  function MemberContacts(ms: seq<GroupMemberInfo>): (cs: seq<ContactInfo>)
    ensures |cs| == |OtherMembers(ms)|
    ensures forall i :: 0 <= i < |cs| ==>
      var m := OtherMembers(ms)[i];
      cs[i].id == m.userID && cs[i].name == m.nickname && cs[i].sub == m.roleLevelString && cs[i].kind == UserContact
  {
    var others := OtherMembers(ms);
    seq(|others|, i requires 0 <= i < |others| =>
      ContactInfo(others[i].userID, others[i].nickname, others[i].faceURL, others[i].roleLevelString, UserContact))
  }

  /** `getFriendsSplit(offset:count:)`: a page cut from the server's list. */
  function Page(all: seq<FriendInfo>, offset: nat, count: nat): (p: seq<FriendInfo>)
    ensures |p| <= count
  {
    var lo := if offset < |all| then offset else |all|;
    var hi := if offset + count < |all| then offset + count else |all|;
    all[lo..hi]
  }

  const PAGE_SIZE: nat := 1000

  /** The contacts of a page extend the contacts of what came before it. */
  lemma FriendContactsAppend(all: seq<FriendInfo>, n: nat, r: seq<FriendInfo>)
    requires n <= |all| && r == Page(all, n, PAGE_SIZE)
    ensures n + |r| <= |all| && all[..n + |r|] == all[..n] + r
    ensures FriendContacts(all[..n]) + FriendContacts(r) == FriendContacts(all[..n + |r|])
  {
    assert all[..n + |r|] == all[..n] + r;
    FriendContactsConcat(all[..n], r);
  }

  /** Converting friends commutes with concatenation. */
  lemma FriendContactsConcat(x: seq<FriendInfo>, y: seq<FriendInfo>)
    ensures FriendContacts(x + y) == FriendContacts(x) + FriendContacts(y)
  {
    var xy := x + y;
    forall i | 0 <= i < |xy|
      ensures FriendContacts(xy)[i] == (FriendContacts(x) + FriendContacts(y))[i]
    {
      if i < |x| {
        assert xy[i] == x[i];
      } else {
        assert xy[i] == y[i - |x|];
      }
    }
  }

  /** Full pages followed by one short page: the page count is the quotient plus one. */
  lemma ShortPageCount(fullPages: nat, rest: nat)
    requires rest < PAGE_SIZE
    ensures (fullPages * PAGE_SIZE + rest) / PAGE_SIZE == fullPages
  {
  }

  /** `contacts.first(where:)` on the id. */
  function FirstIndexWithId(cs: seq<ContactInfo>, id: string): (i: nat)
    ensures i <= |cs|
    ensures forall j :: 0 <= j < i ==> cs[j].id != id
    ensures i < |cs| ==> cs[i].id == id
  {
    if |cs| == 0 then 0
    else if cs[0].id == id then 0
    else 1 + FirstIndexWithId(cs[1..], id)
  }

  class SelectContactsViewModel {
    var tabSelected: ContactType
    var letters: seq<string>
    var contacts: seq<ContactInfo>
    var contactsSections: seq<seq<ContactInfo>>
    var loading: bool
    var friends: seq<ContactInfo>
    var groups: seq<ContactInfo>
    var members: seq<ContactInfo>
    var staff: seq<ContactInfo>
    /** `getFirstPinyinUppercaseCharactor`. */
    const initial: string -> Option<string>

    /** The tab starts on friends, whose (empty) list is sectioned at once. */
    constructor (initial: string -> Option<string>)
      ensures this.initial == initial && tabSelected == Friends
      ensures contacts == [] && friends == [] && groups == [] && members == [] && staff == []
      ensures letters == [] && contactsSections == [] && !loading
    {
      this.initial := initial;
      tabSelected := Friends;
      contacts := [];
      friends := [];
      groups := [];
      members := [];
      staff := [];
      letters := [];
      contactsSections := [];
      loading := false;
    }

    /** `divideContactsInSection`: buckets by initial, then orders the buckets by key. */
    method DivideContactsInSection(cs: seq<ContactInfo>)
      modifies this`letters, this`contactsSections
      ensures Sectioned(cs, initial, letters, contactsSections)
    {
      var categorized, keys := CategorizeByInitial(cs, initial);
      var sortedKeys := SortKeys(keys);
      var sections := SectionsInOrder(cs, initial, categorized, sortedKeys);
      contactsSections := sections;
      letters := sortedKeys;
    }

    /** `getContactIndexPath(by:)`: the first contact with the id, section by section, row by row. */
    method GetContactIndexPath(id: string) returns (p: Option<(nat, nat)>)
      ensures p.None? <==> forall s, r :: 0 <= s < |contactsSections| && 0 <= r < |contactsSections[s]| ==>
        contactsSections[s][r].id != id
      ensures p.Some? ==>
        var (s, r) := p.value;
        s < |contactsSections| && r < |contactsSections[s]| && contactsSections[s][r].id == id &&
        (forall s', r' :: 0 <= s' < s && 0 <= r' < |contactsSections[s']| ==> contactsSections[s'][r'].id != id) &&
        (forall r' :: 0 <= r' < r ==> contactsSections[s][r'].id != id)
    {
      for s := 0 to |contactsSections|
        invariant forall s', r' :: 0 <= s' < s && 0 <= r' < |contactsSections[s']| ==> contactsSections[s'][r'].id != id
      {
        for r := 0 to |contactsSections[s]|
          invariant forall r' :: 0 <= r' < r ==> contactsSections[s][r'].id != id
        {
          if contactsSections[s][r].id == id {
            return Some((s, r));
          }
        }
      }
      return None;
    }

    /** `getContactAt(indexPaths:)`: the contacts at the given (section, row) paths, in that order. */
    method GetContactAt(indexPaths: seq<(nat, nat)>) returns (users: seq<ContactInfo>)
      requires forall k :: 0 <= k < |indexPaths| ==>
        indexPaths[k].0 < |contactsSections| && indexPaths[k].1 < |contactsSections[indexPaths[k].0]|
      ensures |users| == |indexPaths|
      ensures forall k :: 0 <= k < |indexPaths| ==> users[k] == contactsSections[indexPaths[k].0][indexPaths[k].1]
    {
      users := [];
      for k := 0 to |indexPaths|
        invariant |users| == k
        invariant forall j :: 0 <= j < k ==> users[j] == contactsSections[indexPaths[j].0][indexPaths[j].1]
      {
        users := users + [contactsSections[indexPaths[k].0][indexPaths[k].1]];
      }
    }

    /** `getContact(by:)`: the first contact in `contacts` with the id. */
    function GetContact(id: string): (c: Option<ContactInfo>)
      reads this
      ensures c.None? <==> forall j :: 0 <= j < |contacts| ==> contacts[j].id != id
      ensures c.Some? ==> c.value.id == id && exists j :: (0 <= j < |contacts| && contacts[j] == c.value &&
        forall j' :: 0 <= j' < j ==> contacts[j'].id != id)
    {
      var i := FirstIndexWithId(contacts, id);
      if i < |contacts| then Some(contacts[i]) else None
    }

    /**
     * `getMyFriendList`: pages of 1000 fetched at offset `contacts.count`,
     * re-sectioned after each page, until a page comes back short; the
     * offsets requested are returned.
     */
    method GetMyFriendList(all: seq<FriendInfo>) returns (offsets: seq<nat>)
      modifies this`contacts, this`friends, this`loading, this`letters, this`contactsSections
      ensures contacts == FriendContacts(all) && friends == contacts
      ensures Sectioned(contacts, initial, letters, contactsSections)
      ensures !loading
      ensures |offsets| == |all| / PAGE_SIZE + 1
      ensures forall k :: 0 <= k < |offsets| ==> offsets[k] == k * PAGE_SIZE
    {
      loading := true;
      contacts := [];
      offsets := [];
      while true
        invariant |contacts| <= |all| && contacts == FriendContacts(all[..|contacts|])
        invariant |contacts| == |offsets| * PAGE_SIZE
        invariant forall k :: 0 <= k < |offsets| ==> offsets[k] == k * PAGE_SIZE
        decreases |all| - |contacts|
      {
        var before := |contacts|;
        var r := Page(all, before, PAGE_SIZE);
        offsets := offsets + [before];
        FriendContactsAppend(all, before, r);
        contacts := contacts + FriendContacts(r);
        DivideContactsInSection(contacts);
        if |r| < PAGE_SIZE {
          assert |contacts| == |all|;
          assert all[..|all|] == all;
          ShortPageCount(|offsets| - 1, |r|);
          break;
        }
      }
      friends := contacts;
      loading := false;
    }

    /** `getGroups`: the joined groups become `contacts`, are appended to `groups`, and are shown only on the undefined tab. */
    method GetGroups(joined: seq<GroupInfo>)
      modifies this`contacts, this`groups, this`letters, this`contactsSections
      ensures contacts == GroupContacts(joined)
      ensures groups == old(groups) + contacts
      ensures tabSelected == Undefine ==> Sectioned(contacts, initial, letters, contactsSections)
      ensures tabSelected != Undefine ==> letters == old(letters) && contactsSections == old(contactsSections)
    {
      contacts := GroupContacts(joined);
      groups := groups + contacts;
      if tabSelected == Undefine {
        DivideContactsInSection(contacts);
      }
    }

    /** `getGroupMemberList`: the other members become `contacts`, are appended to `members` and are shown. */
    method GetGroupMemberList(ms: seq<GroupMemberInfo>)
      modifies this`contacts, this`members, this`letters, this`contactsSections
      ensures contacts == MemberContacts(ms)
      ensures members == old(members) + contacts
      ensures Sectioned(contacts, initial, letters, contactsSections)
    {
      contacts := MemberContacts(ms);
      members := members + contacts;
      DivideContactsInSection(contacts);
    }

    /** Selecting a tab shows the list of that tab; the undefined tab changes nothing. */
    method SelectTab(t: ContactType)
      modifies this`tabSelected, this`letters, this`contactsSections
      ensures tabSelected == t
      ensures t == Friends ==> Sectioned(friends, initial, letters, contactsSections)
      ensures t == Members ==> Sectioned(members, initial, letters, contactsSections)
      ensures t == Groups ==> Sectioned(groups, initial, letters, contactsSections)
      ensures t == Staff ==> Sectioned(staff, initial, letters, contactsSections)
      ensures t == Undefine ==> letters == old(letters) && contactsSections == old(contactsSections)
    {
      tabSelected := t;
      match t
      case Friends => DivideContactsInSection(friends);
      case Members => DivideContactsInSection(members);
      case Groups => DivideContactsInSection(groups);
      case Staff => DivideContactsInSection(staff);
      case Undefine =>
    }
  }

  /** The first loop of `divideContactsInSection`: each contact appended to the bucket of its initial. */
  method CategorizeByInitial(cs: seq<ContactInfo>, initial: string -> Option<string>)
    returns (categorized: map<string, seq<ContactInfo>>, keys: seq<string>)
    ensures forall a, b :: 0 <= a < b < |keys| ==> keys[a] != keys[b]
    ensures forall k :: k in keys <==> k in categorized
    ensures forall k :: k in keys <==> k in Keys(cs, initial)
    ensures forall k :: k in categorized ==> categorized[k] == Bucket(cs, k, initial)
  {
    categorized := map[];
    keys := [];
    for i := 0 to |cs|
      invariant Categorized(cs[..i], initial, categorized, keys)
    {
      categorized, keys := FileContact(cs, i, initial, categorized, keys);
    }
    assert cs[..|cs|] == cs;
  }

  /** The buckets and the order of first occurrence of their keys, for a prefix of the contacts. */
  ghost predicate Categorized(cs: seq<ContactInfo>, initial: string -> Option<string>,
                              categorized: map<string, seq<ContactInfo>>, keys: seq<string>) {
    (forall a, b :: 0 <= a < b < |keys| ==> keys[a] != keys[b]) &&
    (forall k :: k in keys <==> k in categorized) &&
    (forall k :: k in keys <==> k in Keys(cs, initial)) &&
    (forall k :: k in categorized ==> categorized[k] == Bucket(cs, k, initial))
  }

  /** One step of that loop: contact `i` appended to its bucket, a new key recorded on first sight. */
  method FileContact(cs: seq<ContactInfo>, i: nat, initial: string -> Option<string>,
                     categorized: map<string, seq<ContactInfo>>, keys: seq<string>)
    returns (categorized': map<string, seq<ContactInfo>>, keys': seq<string>)
    requires i < |cs| && Categorized(cs[..i], initial, categorized, keys)
    ensures Categorized(cs[..i + 1], initial, categorized', keys')
  {
    categorized', keys' := categorized, keys;
    var letter := LetterOf(cs[i], initial);
    if letter.None? {
      FileSkipped(cs, i, initial, categorized, keys);
    } else {
      var key := letter.value;
      if key in categorized {
        FileExisting(cs, i, initial, categorized, keys, key);
        categorized' := categorized[key := categorized[key] + [cs[i]]];
      } else {
        FileNew(cs, i, initial, categorized, keys, key);
        categorized' := categorized[key := [cs[i]]];
        keys' := keys + [key];
      }
    }
  }

  /** A contact without an initial changes nothing. */
  lemma FileSkipped(cs: seq<ContactInfo>, i: nat, initial: string -> Option<string>,
                    categorized: map<string, seq<ContactInfo>>, keys: seq<string>)
    requires i < |cs| && Categorized(cs[..i], initial, categorized, keys)
    requires LetterOf(cs[i], initial).None?
    ensures Categorized(cs[..i + 1], initial, categorized, keys)
  {
    BucketStep(cs, i, initial);
    KeysStep(cs, i, initial);
  }

  /** A contact whose key has a bucket joins the end of it. */
  lemma FileExisting(cs: seq<ContactInfo>, i: nat, initial: string -> Option<string>,
                     categorized: map<string, seq<ContactInfo>>, keys: seq<string>, key: string)
    requires i < |cs| && Categorized(cs[..i], initial, categorized, keys)
    requires LetterOf(cs[i], initial) == Some(key) && key in categorized
    ensures Categorized(cs[..i + 1], initial, categorized[key := categorized[key] + [cs[i]]], keys)
  {
    BucketStep(cs, i, initial);
    KeysStep(cs, i, initial);
  }

  /** A contact with a key not seen before opens a bucket, and the key is recorded last. */
  lemma FileNew(cs: seq<ContactInfo>, i: nat, initial: string -> Option<string>,
                categorized: map<string, seq<ContactInfo>>, keys: seq<string>, key: string)
    requires i < |cs| && Categorized(cs[..i], initial, categorized, keys)
    requires LetterOf(cs[i], initial) == Some(key) && key !in categorized
    ensures Categorized(cs[..i + 1], initial, categorized[key := [cs[i]]], keys + [key])
  {
    NewKeyDistinct(keys, key, keys + [key]);
    KeysStep(cs, i, initial);
    NewBucket(cs, i, initial, categorized, key, categorized[key := [cs[i]]]);
  }

  lemma NewKeyDistinct(keys: seq<string>, key: string, keys': seq<string>)
    requires forall a, b :: 0 <= a < b < |keys| ==> keys[a] != keys[b]
    requires key !in keys && keys' == keys + [key]
    ensures forall a, b :: 0 <= a < b < |keys'| ==> keys'[a] != keys'[b]
  {
    forall a, b | 0 <= a < b < |keys'|
      ensures keys'[a] != keys'[b]
    {
      if b == |keys| {
        assert keys'[a] == keys[a] && keys[a] in keys;
      }
    }
  }

  lemma NewBucket(cs: seq<ContactInfo>, i: nat, initial: string -> Option<string>,
                  categorized: map<string, seq<ContactInfo>>, key: string,
                  categorized': map<string, seq<ContactInfo>>)
    requires i < |cs| && LetterOf(cs[i], initial) == Some(key)
    requires key !in Keys(cs[..i], initial)
    requires forall k :: k in categorized ==> categorized[k] == Bucket(cs[..i], k, initial)
    requires categorized' == categorized[key := [cs[i]]]
    ensures forall k :: k in categorized' ==> categorized'[k] == Bucket(cs[..i + 1], k, initial)
  {
    BucketStep(cs, i, initial);
    BucketKeyOccurs(cs[..i], key, initial);
  }

  /** The second loop of `divideContactsInSection`: the bucket of each key, in the keys' order. */
  method SectionsInOrder(cs: seq<ContactInfo>, initial: string -> Option<string>,
                         categorized: map<string, seq<ContactInfo>>, keys: seq<string>)
    returns (sections: seq<seq<ContactInfo>>)
    requires forall k :: k in keys ==> k in categorized && categorized[k] == Bucket(cs, k, initial)
    ensures |sections| == |keys|
    ensures forall j :: 0 <= j < |keys| ==> sections[j] == Bucket(cs, keys[j], initial)
  {
    sections := [];
    for i := 0 to |keys|
      invariant |sections| == i
      invariant forall j :: 0 <= j < i ==> sections[j] == Bucket(cs, keys[j], initial)
    {
      sections := sections + [categorized[keys[i]]];
    }
  }

  lemma BucketStep(cs: seq<ContactInfo>, i: nat, initial: string -> Option<string>)
    requires i < |cs|
    ensures forall k :: (Bucket(cs[..i + 1], k, initial) ==
      Bucket(cs[..i], k, initial) + (if LetterOf(cs[i], initial) == Some(k) then [cs[i]] else []))
  {
    assert cs[..i + 1][..i] == cs[..i];
  }

  lemma BucketKeyOccurs(cs: seq<ContactInfo>, key: string, initial: string -> Option<string>)
    ensures Bucket(cs, key, initial) != [] ==> key in Keys(cs, initial)
  {
    if Bucket(cs, key, initial) != [] {
      var c := Bucket(cs, key, initial)[0];
      assert c in cs;
      var i :| 0 <= i < |cs| && cs[i] == c;
      assert LetterOf(cs[i], initial) == Some(key);
    }
  }

  lemma KeysStep(cs: seq<ContactInfo>, i: nat, initial: string -> Option<string>)
    requires i < |cs|
    ensures forall k :: k in Keys(cs[..i + 1], initial) <==>
      k in Keys(cs[..i], initial) || LetterOf(cs[i], initial) == Some(k)
  {
    var p := cs[..i + 1];
    assert p[i] == cs[i];
    forall k
      ensures k in Keys(p, initial) <==> k in Keys(cs[..i], initial) || LetterOf(cs[i], initial) == Some(k)
    {
      if k in Keys(p, initial) {
        var j :| 0 <= j < |p| && LetterOf(p[j], initial) == Some(k);
        if j < i {
          assert cs[..i][j] == p[j];
        }
      }
      if k in Keys(cs[..i], initial) {
        var j :| 0 <= j < i && LetterOf(cs[..i][j], initial) == Some(k);
        assert p[j] == cs[..i][j];
      }
    }
  }
}
