/** The three table bisections, each proved equal to a linear scan of its table. */
module MessageTable {
  import opened Bytes

  datatype Option<+T> = None | Some(value: T)

  /** `mavlink_msg_entry_t`; the target offsets and flags play no part here. */
  datatype MsgEntry = MsgEntry(msgid: nat, crcExtra: byte, minLen: uint8, maxLen: uint8)

  /** `mavlink_message_info_t`, without the field descriptions. */
  datatype MessageInfo = MessageInfo(msgid: nat, name: seq<byte>)

  datatype NameEntry = NameEntry(name: seq<byte>, msgid: nat)

  // ----- the specification: a scan from the front -----

  function Scan<T>(table: seq<T>, wanted: T -> bool): Option<T> {
    if table == [] then None else if wanted(table[0]) then Some(table[0]) else Scan(table[1..], wanted)
  }

  lemma {:induction false} ScanMisses<T>(table: seq<T>, wanted: T -> bool)
    requires forall i :: 0 <= i < |table| ==> !wanted(table[i])
    ensures Scan(table, wanted) == None
  {
    if table != [] {
      ScanMisses(table[1..], wanted);
    }
  }

  lemma {:induction false} ScanHits<T>(table: seq<T>, wanted: T -> bool, at: nat)
    requires at < |table| && wanted(table[at])
    requires forall i :: 0 <= i < at ==> !wanted(table[i])
    ensures Scan(table, wanted) == Some(table[at])
  {
    if at > 0 {
      ScanHits(table[1..], wanted, at - 1);
    }
  }

  function Lookup(table: seq<MsgEntry>, msgid: nat): Option<MsgEntry> {
    Scan(table, (e: MsgEntry) => e.msgid == msgid)
  }

  function InfoById(table: seq<MessageInfo>, msgid: nat): Option<MessageInfo> {
    Scan(table, (e: MessageInfo) => e.msgid == msgid)
  }

  function InfoByName(names: seq<NameEntry>, infos: seq<MessageInfo>, name: seq<byte>): Option<MessageInfo> {
    match Scan(names, (e: NameEntry) => e.name == name)
    case None => None
    case Some(e) => InfoById(infos, e.msgid)
  }

  ghost predicate Sorted(table: seq<MsgEntry>) {
    forall i, j :: 0 <= i < j < |table| ==> table[i].msgid < table[j].msgid
  }

  ghost predicate SortedInfo(table: seq<MessageInfo>) {
    forall i, j :: 0 <= i < j < |table| ==> table[i].msgid < table[j].msgid
  }

  ghost predicate SortedNames(names: seq<NameEntry>) {
    forall i, j :: 0 <= i < j < |names| ==> Strcmp(names[i].name, names[j].name) < 0
  }

  // ----- the C library's order on names -----

  function Strcmp(a: seq<byte>, b: seq<byte>): int {
    if a == [] && b == [] then 0
    else if a == [] then -1
    else if b == [] then 1
    else if a[0] != b[0] then if a[0] < b[0] then -1 else 1
    else Strcmp(a[1..], b[1..])
  }

  lemma {:induction false} StrcmpZeroIsEquality(a: seq<byte>, b: seq<byte>)
    ensures Strcmp(a, b) == 0 <==> a == b
  {
    if a != [] && b != [] {
      StrcmpZeroIsEquality(a[1..], b[1..]);
      assert a == [a[0]] + a[1..] && b == [b[0]] + b[1..];
    }
  }

  lemma {:induction false} StrcmpTransitive(a: seq<byte>, b: seq<byte>, c: seq<byte>)
    requires Strcmp(a, b) < 0 && Strcmp(b, c) < 0
    ensures Strcmp(a, c) < 0
  {
    if a != [] && a[0] == b[0] == c[0] {
      StrcmpTransitive(a[1..], b[1..], c[1..]);
    }
  }

  lemma {:induction false} StrcmpAntisymmetric(a: seq<byte>, b: seq<byte>)
    ensures Strcmp(a, b) < 0 <==> Strcmp(b, a) > 0
  {
    if a != [] && b != [] {
      StrcmpAntisymmetric(a[1..], b[1..]);
    }
  }

  // ----- the bisections -----

  /** `mavlink_get_msg_entry`: the middle is rounded up and the lower half keeps it. */
  method GetMsgEntry(table: seq<MsgEntry>, msgid: nat) returns (entry: Option<MsgEntry>)
    requires Sorted(table) && |table| > 0
    ensures entry == Lookup(table, msgid)
    ensures entry.Some? <==> exists i :: 0 <= i < |table| && table[i].msgid == msgid
    ensures entry.Some? ==> entry.value in table && entry.value.msgid == msgid
  {
    var low, high := 0, |table| - 1;
    while low < high
      invariant 0 <= low <= high < |table|
      invariant forall i :: 0 <= i < low ==> table[i].msgid != msgid
      invariant forall i :: high < i < |table| ==> table[i].msgid != msgid
    {
      var mid := (low + 1 + high) / 2;
      if msgid < table[mid].msgid {
        high := mid - 1;
        continue;
      }
      if msgid > table[mid].msgid {
        low := mid;
        continue;
      }
      low := mid;
      break;
    }
    if table[low].msgid != msgid {
      ScanMisses(table, (e: MsgEntry) => e.msgid == msgid);
      return None;
    }
    ScanHits(table, (e: MsgEntry) => e.msgid == msgid, low);
    return Some(table[low]);
  }

  /** `mavlink_get_message_info_by_id`: the middle is rounded down and the upper half drops it. */
  method GetMessageInfoById(table: seq<MessageInfo>, msgid: nat) returns (info: Option<MessageInfo>)
    requires SortedInfo(table)
    ensures info == InfoById(table, msgid)
    ensures info.Some? <==> exists i :: 0 <= i < |table| && table[i].msgid == msgid
  {
    if |table| == 0 {
      return None;
    }
    var low, high := 0, |table| - 1;
    while low < high
      invariant 0 <= low <= high < |table|
      invariant forall i :: 0 <= i < low ==> table[i].msgid != msgid
      invariant forall i :: high < i < |table| ==> table[i].msgid != msgid
    {
      var mid := (low + high) / 2;
      if msgid < table[mid].msgid {
        high := mid;
        continue;
      }
      if msgid > table[mid].msgid {
        low := mid + 1;
        continue;
      }
      ScanHits(table, (e: MessageInfo) => e.msgid == msgid, mid);
      return Some(table[mid]);
    }
    if table[low].msgid == msgid {
      ScanHits(table, (e: MessageInfo) => e.msgid == msgid, low);
      return Some(table[low]);
    }
    ScanMisses(table, (e: MessageInfo) => e.msgid == msgid);
    return None;
  }

  // What one comparison says about every entry on that side of it.
  lemma NamesBelow(names: seq<NameEntry>, name: seq<byte>, mid: nat)
    requires SortedNames(names) && mid < |names| && Strcmp(names[mid].name, name) < 0
    ensures forall i :: 0 <= i <= mid ==> names[i].name != name
  {
    forall i | 0 <= i <= mid
      ensures names[i].name != name
    {
      if i < mid {
        StrcmpTransitive(names[i].name, names[mid].name, name);
      }
      StrcmpZeroIsEquality(names[i].name, name);
    }
  }

  lemma NamesAbove(names: seq<NameEntry>, name: seq<byte>, mid: nat)
    requires SortedNames(names) && mid < |names| && Strcmp(names[mid].name, name) > 0
    ensures forall i :: mid <= i < |names| ==> names[i].name != name
  {
    StrcmpAntisymmetric(name, names[mid].name);
    forall i | mid <= i < |names|
      ensures names[i].name != name
    {
      if i > mid {
        StrcmpTransitive(name, names[mid].name, names[i].name);
      }
      StrcmpZeroIsEquality(name, names[i].name);
    }
  }

  /** `mavlink_get_message_info_by_name`: a bisection by name, then one by id. */
  method GetMessageInfoByName(names: seq<NameEntry>, infos: seq<MessageInfo>, name: seq<byte>)
    returns (info: Option<MessageInfo>)
    requires SortedNames(names) && SortedInfo(infos)
    ensures info == InfoByName(names, infos, name)
  {
    hide Strcmp;
    if |names| == 0 {
      return None;
    }
    var low, high := 0, |names| - 1;
    while low < high
      invariant 0 <= low <= high < |names|
      invariant forall i :: 0 <= i < low ==> names[i].name != name
      invariant forall i :: high < i < |names| ==> names[i].name != name
    {
      var mid := (low + high) / 2;
      var cmp := Strcmp(names[mid].name, name);
      if cmp > 0 {
        NamesAbove(names, name, mid);
        high := mid;
        continue;
      }
      if cmp < 0 {
        NamesBelow(names, name, mid);
        low := mid + 1;
        continue;
      }
      FoundAt(names, name, mid);
      low := mid;
      break;
    }
    StrcmpZeroIsEquality(names[low].name, name);
    if Strcmp(names[low].name, name) == 0 {
      ScanHits(names, (e: NameEntry) => e.name == name, low);
      info := GetMessageInfoById(infos, names[low].msgid);
      return;
    }
    ScanMisses(names, (e: NameEntry) => e.name == name);
    return None;
  }

  lemma FoundAt(names: seq<NameEntry>, name: seq<byte>, mid: nat)
    requires SortedNames(names) && mid < |names| && Strcmp(names[mid].name, name) == 0
    ensures names[mid].name == name
    ensures forall i :: 0 <= i < |names| && i != mid ==> names[i].name != name
  {
    StrcmpZeroIsEquality(names[mid].name, name);
    forall i | 0 <= i < |names| && i != mid
      ensures names[i].name != name
    {
      StrcmpZeroIsEquality(names[i].name, name);
      StrcmpAntisymmetric(names[mid].name, names[i].name);
    }
  }

  /** What the lookup by name means: the message of the number that the name stands for. */
  lemma InfoByNameMeans(names: seq<NameEntry>, infos: seq<MessageInfo>, name: seq<byte>, x: MessageInfo)
    requires SortedNames(names) && SortedInfo(infos)
    ensures InfoByName(names, infos, name) == Some(x) <==>
      exists i, j :: 0 <= i < |names| && 0 <= j < |infos|
        && names[i].name == name && infos[j].msgid == names[i].msgid && infos[j] == x
  {
    hide Strcmp;
    var byName := (e: NameEntry) => e.name == name;
    ScanFinds(names, byName);
    if i :| 0 <= i < |names| && names[i].name == name {
      NamesAreUnique(names, name, i);
      ScanHits(names, byName, i);
      var byId := (e: MessageInfo) => e.msgid == names[i].msgid;
      ScanFinds(infos, byId);
      if j :| 0 <= j < |infos| && infos[j].msgid == names[i].msgid {
        ScanHits(infos, byId, j);
      }
    }
  }

  lemma NamesAreUnique(names: seq<NameEntry>, name: seq<byte>, i: nat)
    requires SortedNames(names) && i < |names| && names[i].name == name
    ensures forall k :: 0 <= k < |names| && names[k].name == name ==> k == i
  {
    hide Strcmp;
    StrcmpZeroIsEquality(name, name);
  }

  lemma {:induction false} ScanFinds<T>(table: seq<T>, wanted: T -> bool)
    ensures Scan(table, wanted) == None <==> forall k :: 0 <= k < |table| ==> !wanted(table[k])
    ensures Scan(table, wanted).Some? ==> exists k :: 0 <= k < |table| && wanted(table[k]) && Scan(table, wanted) == Some(table[k])
  {
    if table != [] {
      ScanFinds(table[1..], wanted);
      if !wanted(table[0]) && Scan(table, wanted).Some? {
        var k :| 0 <= k < |table[1..]| && wanted(table[1..][k]) && Scan(table[1..], wanted) == Some(table[1..][k]);
        assert table[1..][k] == table[k + 1];
      }
      assert forall k :: 1 <= k < |table| ==> table[k] == table[1..][k - 1];
    }
  }
}
