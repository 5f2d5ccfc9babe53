/** POSIX ACL blobs (`src/certs/paths.rs`): what the certificate permission checks read from
    the `system.posix_acl_access` attribute of a file. */
module Acl {
  import opened Wrappers

  datatype AclEntry = AclEntry(tag: bv16, perm: bv16, id: bv32)

  const TAG_USER: bv16 := 0x02
  const TAG_GROUP_OBJ: bv16 := 0x04
  const TAG_GROUP: bv16 := 0x08
  const TAG_MASK: bv16 := 0x10
  const TAG_OTHER: bv16 := 0x20

  const HEADER: nat := 4
  const ENTRY: nat := 8

  // ---- little-endian numbers ----

  function U16(b0: bv8, b1: bv8): bv16 {
    (b0 as bv16) | ((b1 as bv16) << 8)
  }

  function U32(b0: bv8, b1: bv8, b2: bv8, b3: bv8): bv32 {
    (b0 as bv32) | ((b1 as bv32) << 8) | ((b2 as bv32) << 16) | ((b3 as bv32) << 24)
  }

  function Le16(x: bv16): Bytes {
    [(x & 0xFF) as bv8, (x >> 8) as bv8]
  }

  function Le32(x: bv32): Bytes {
    [(x & 0xFF) as bv8, ((x >> 8) & 0xFF) as bv8, ((x >> 16) & 0xFF) as bv8, (x >> 24) as bv8]
  }

  lemma Le16Inverse(x: bv16)
    ensures U16(Le16(x)[0], Le16(x)[1]) == x
  {
  }

  lemma Le32Inverse(x: bv32)
    ensures U32(Le32(x)[0], Le32(x)[1], Le32(x)[2], Le32(x)[3]) == x
  {
  }

  // ---- decoding ----

  predicate IsAcl(buf: Bytes) {
    |buf| >= HEADER && (|buf| - HEADER) % ENTRY == 0 && U32(buf[0], buf[1], buf[2], buf[3]) == 2
  }

  function EntryCount(buf: Bytes): nat
    requires IsAcl(buf)
  {
    (|buf| - HEADER) / ENTRY
  }

  function Chunk(buf: Bytes, k: nat): (e: Bytes)
    requires IsAcl(buf) && k < EntryCount(buf)
    ensures |e| == ENTRY
  {
    buf[HEADER + ENTRY * k..HEADER + ENTRY * k + ENTRY]
  }

  function DecodeEntry(e: Bytes): AclEntry
    requires |e| == ENTRY
  {
    AclEntry(U16(e[0], e[1]), U16(e[2], e[3]), U32(e[4], e[5], e[6], e[7]))
  }

  function EntryAt(buf: Bytes, k: nat): AclEntry
    requires IsAcl(buf) && k < EntryCount(buf)
  {
    DecodeEntry(Chunk(buf, k))
  }

  predicate Grants(perm: bv16, perms: bv16) {
    perm & perms != 0
  }

  /** The base group, a named group or everyone. */
  predicate IsBroadTag(tag: bv16) {
    tag == TAG_GROUP_OBJ || tag == TAG_GROUP || tag == TAG_OTHER
  }

  predicate IsBroad(e: AclEntry, perms: bv16) {
    Grants(e.perm, perms) && IsBroadTag(e.tag)
  }

  predicate AnyBroad(entries: seq<AclEntry>, perms: bv16) {
    exists k :: 0 <= k < |entries| && IsBroad(entries[k], perms)
  }

  function Entries(buf: Bytes): (entries: seq<AclEntry>)
    requires IsAcl(buf)
    ensures |entries| == EntryCount(buf) && forall k :: 0 <= k < |entries| ==> entries[k] == EntryAt(buf, k)
  {
    seq(EntryCount(buf), k requires 0 <= k < EntryCount(buf) => EntryAt(buf, k))
  }

  /** The verdict on a blob, or nothing if it is not a version 2 ACL. */
  function HasBroadPerms(buf: Bytes, perms: bv16): Option<bool> {
    if IsAcl(buf) then Some(AnyBroad(Entries(buf), perms)) else None
  }

  lemma SomeExactly(buf: Bytes, perms: bv16)
    ensures HasBroadPerms(buf, perms).Some? <==>
      && (exists n: nat :: |buf| == HEADER + ENTRY * n)
      && (buf[0], buf[1], buf[2], buf[3]) == (2, 0, 0, 0)
  {
    if |buf| >= HEADER && (|buf| - HEADER) % ENTRY == 0 {
      assert |buf| == HEADER + ENTRY * ((|buf| - HEADER) / ENTRY);
      TwoIsLittleEndian(buf[0], buf[1], buf[2], buf[3]);
    }
  }

  lemma TwoIsLittleEndian(b0: bv8, b1: bv8, b2: bv8, b3: bv8)
    ensures U32(b0, b1, b2, b3) == 2 <==> (b0, b1, b2, b3) == (2, 0, 0, 0)
  {
  }

  /** `acl_has_broad_perms_from_bytes`. */
  method AclHasBroadPermsFromBytes(buf: Bytes, perms: bv16) returns (r: Option<bool>)
    ensures r == HasBroadPerms(buf, perms)
  {
    hide AnyBroad, U16, U32, EntryAt, Grants, IsBroadTag, Chunk;
    if |buf| < 4 || (|buf| - 4) % 8 != 0 {
      return None;
    }
    var version := U32(buf[0], buf[1], buf[2], buf[3]);
    if version != 2 {
      return None;
    }

    var broad := false;
    var chunks := (|buf| - 4) / 8;
    NoneBroad(perms);
    assert Entries(buf)[..0] == [];
    for k := 0 to chunks
      invariant broad == AnyBroad(Entries(buf)[..k], perms)
    {
      var entry := Chunk(buf, k);
      var tag := U16(entry[0], entry[1]);
      var perm := U16(entry[2], entry[3]);
      EntryFields(buf, k);
      AnyBroadSnoc(Entries(buf), k, perms);
      if Grants(perm, perms) && IsBroadTag(tag) {
        broad := true;
      }
    }
    assert Entries(buf)[..chunks] == Entries(buf);
    return Some(broad);
  }

  lemma EntryFields(buf: Bytes, k: nat)
    requires IsAcl(buf) && k < EntryCount(buf)
    ensures var e := Chunk(buf, k);
            EntryAt(buf, k).tag == U16(e[0], e[1]) && EntryAt(buf, k).perm == U16(e[2], e[3])
  {
    hide U16, U32, Chunk;
  }

  lemma NoneBroad(perms: bv16)
    ensures !AnyBroad([], perms)
  {
  }

  lemma AnyBroadSnoc(entries: seq<AclEntry>, k: nat, perms: bv16)
    requires k < |entries|
    ensures AnyBroad(entries[..k + 1], perms) == (AnyBroad(entries[..k], perms) || IsBroad(entries[k], perms))
  {
    if AnyBroad(entries[..k], perms) {
      var i :| 0 <= i < k && IsBroad(entries[..k][i], perms);
      assert entries[..k + 1][i] == entries[..k][i];
    }
    if IsBroad(entries[k], perms) {
      assert entries[..k + 1][k] == entries[k];
    }
    if AnyBroad(entries[..k + 1], perms) && !IsBroad(entries[k], perms) {
      var i :| 0 <= i < k + 1 && IsBroad(entries[..k + 1][i], perms);
      assert entries[..k][i] == entries[..k + 1][i];
    }
  }

  // ---- encoding ----

  function EncodeEntry(e: AclEntry): (b: Bytes)
    ensures |b| == ENTRY
  {
    Le16(e.tag) + Le16(e.perm) + Le32(e.id)
  }

  function EncodeEntries(entries: seq<AclEntry>): (b: Bytes)
    ensures |b| == ENTRY * |entries|
  {
    if entries == [] then [] else EncodeEntries(entries[..|entries| - 1]) + EncodeEntry(entries[|entries| - 1])
  }

  function Encode(entries: seq<AclEntry>): Bytes {
    Le32(2) + EncodeEntries(entries)
  }

  /** `acl_blob`. */
  method AclBlob(entries: seq<AclEntry>) returns (buf: Bytes)
    ensures buf == Encode(entries)
  {
    buf := Le32(2);
    for k := 0 to |entries|
      invariant buf == Le32(2) + EncodeEntries(entries[..k])
    {
      assert entries[..k + 1][..k] == entries[..k];
      buf := buf + Le16(entries[k].tag);
      buf := buf + Le16(entries[k].perm);
      buf := buf + Le32(entries[k].id);
      assert buf == Le32(2) + (EncodeEntries(entries[..k]) + EncodeEntry(entries[k]));
    }
    assert entries[..|entries|] == entries;
  }

  lemma {:induction false} EncodedAt(entries: seq<AclEntry>, k: nat)
    requires k < |entries|
    ensures ENTRY * k + ENTRY <= |EncodeEntries(entries)|
    ensures EncodeEntries(entries)[ENTRY * k..ENTRY * k + ENTRY] == EncodeEntry(entries[k])
    decreases |entries|
  {
    hide EncodeEntry;
    var n := |entries| - 1;
    var before := EncodeEntries(entries[..n]);
    var last := EncodeEntry(entries[n]);
    assert EncodeEntries(entries) == before + last;
    if k == n {
      assert (before + last)[ENTRY * k..ENTRY * k + ENTRY] == last;
    } else {
      EncodedAt(entries[..n], k);
      assert (before + last)[ENTRY * k..ENTRY * k + ENTRY] == before[ENTRY * k..ENTRY * k + ENTRY];
    }
  }

  lemma EntryInverse(e: AclEntry)
    ensures DecodeEntry(EncodeEntry(e)) == e
  {
    Le16Inverse(e.tag);
    Le16Inverse(e.perm);
    Le32Inverse(e.id);
    hide Le16, Le32, U16, U32;
    var b := EncodeEntry(e);
    Sizes(e);
    assert b[0] == Le16(e.tag)[0] && b[1] == Le16(e.tag)[1];
    assert b[2] == Le16(e.perm)[0] && b[3] == Le16(e.perm)[1];
    assert b[4] == Le32(e.id)[0] && b[5] == Le32(e.id)[1] && b[6] == Le32(e.id)[2] && b[7] == Le32(e.id)[3];
  }

  lemma Sizes(e: AclEntry)
    ensures |Le16(e.tag)| == 2 && |Le16(e.perm)| == 2 && |Le32(e.id)| == 4
  {
  }

  lemma HeaderIsTwo(b: Bytes)
    requires |b| >= 4 && b[..4] == Le32(2)
    ensures U32(b[0], b[1], b[2], b[3]) == 2
  {
    Le32Inverse(2);
    hide U32, Le32;
    assert b[0] == b[..4][0] && b[1] == b[..4][1] && b[2] == b[..4][2] && b[3] == b[..4][3];
  }

  lemma Parts(a: Bytes, b: Bytes)
    ensures (a + b)[..|a|] == a && (a + b)[|a|..] == b
  {
  }

  lemma SliceOfRest(buf: Bytes, h: nat, i: nat, j: nat)
    requires i <= j && h + j <= |buf|
    ensures buf[h..][i..j] == buf[h + i..h + j]
  {
  }

  lemma EncodedParts(entries: seq<AclEntry>)
    ensures |Encode(entries)| == HEADER + ENTRY * |entries|
    ensures Encode(entries)[..HEADER] == Le32(2)
    ensures Encode(entries)[HEADER..] == EncodeEntries(entries)
  {
    assert |Le32(2)| == HEADER;
    hide Le32, EncodeEntries;
    Parts(Le32(2), EncodeEntries(entries));
  }

  lemma EncodedIsAcl(entries: seq<AclEntry>)
    ensures IsAcl(Encode(entries)) && EntryCount(Encode(entries)) == |entries|
  {
    hide U32, Le32, EncodeEntries, Encode;
    EncodedParts(entries);
    HeaderIsTwo(Encode(entries));
  }

  lemma EncodedChunk(entries: seq<AclEntry>, k: nat)
    requires k < |entries| && IsAcl(Encode(entries)) && k < EntryCount(Encode(entries))
    ensures Chunk(Encode(entries), k) == EncodeEntry(entries[k])
  {
    hide EncodeEntry, IsAcl, EntryCount, Encode, EncodeEntries, Le32;
    EncodedParts(entries);
    EncodedAt(entries, k);
    SliceOfRest(Encode(entries), HEADER, ENTRY * k, ENTRY * k + ENTRY);
  }

  lemma EncodedEntryAt(entries: seq<AclEntry>, k: nat)
    requires k < |entries| && IsAcl(Encode(entries)) && k < EntryCount(Encode(entries))
    ensures EntryAt(Encode(entries), k) == entries[k]
  {
    hide DecodeEntry, EncodeEntry, IsAcl, EntryCount, Encode, Chunk;
    EncodedChunk(entries, k);
    EntryInverse(entries[k]);
  }

  /** Decoding inverts encoding. */
  lemma DecodeEncode(entries: seq<AclEntry>)
    ensures IsAcl(Encode(entries)) && Entries(Encode(entries)) == entries
  {
    EncodedIsAcl(entries);
    hide IsAcl, EntryCount, EntryAt, Encode;
    forall k | 0 <= k < |entries| ensures EntryAt(Encode(entries), k) == entries[k] {
      EncodedEntryAt(entries, k);
    }
  }

  /** The verdict on an encoded list is the verdict on the list. */
  lemma VerdictOfEncoded(entries: seq<AclEntry>, perms: bv16)
    ensures HasBroadPerms(Encode(entries), perms) == Some(AnyBroad(entries, perms))
  {
    DecodeEncode(entries);
    hide IsAcl, EntryCount, EntryAt, Encode, Entries;
  }

  // ---- the bytes themselves ----

  /** Low byte first. */
  function LowFirst(b0: bv8, b1: bv8): bv16 {
    (b0 as bv16) + (b1 as bv16) * 256
  }

  lemma U16IsSum(b0: bv8, b1: bv8)
    ensures U16(b0, b1) == LowFirst(b0, b1)
  {
  }

  /** Entry `k` of a blob grants one of these bits to the base group (tag 4), a named group
      (tag 8) or everyone (tag 32). Tag and permissions are the first four of its eight bytes,
      low byte first. */
  predicate GrantsToMany(buf: Bytes, k: nat, perms: bv16)
    requires 8 + 8 * k + 4 <= |buf|
  {
    var tag, perm := LowFirst(buf[4 + 8 * k], buf[5 + 8 * k]), LowFirst(buf[6 + 8 * k], buf[7 + 8 * k]);
    tag in {4, 8, 32} && perm & perms != 0
  }

  lemma EntryInBytes(buf: Bytes, k: nat, perms: bv16)
    requires IsAcl(buf) && k < EntryCount(buf)
    ensures IsBroad(EntryAt(buf, k), perms) <==> GrantsToMany(buf, k, perms)
  {
    EntryFields(buf, k);
    var e := Chunk(buf, k);
    assert e[0] == buf[4 + 8 * k] && e[1] == buf[5 + 8 * k] && e[2] == buf[6 + 8 * k] && e[3] == buf[7 + 8 * k];
    U16IsSum(e[0], e[1]);
    U16IsSum(e[2], e[3]);
    TagSet(EntryAt(buf, k).tag);
    GrantsIs(EntryAt(buf, k).perm, perms);
    hide U16, U32, Chunk, EntryAt, LowFirst, Grants, IsBroadTag;
  }

  lemma TagSet(tag: bv16)
    ensures IsBroadTag(tag) <==> tag in {4, 8, 32}
  {
  }

  lemma GrantsIs(perm: bv16, perms: bv16)
    ensures Grants(perm, perms) <==> perm & perms != 0
  {
  }

  /** The verdict on any blob in terms of its bytes. */
  lemma VerdictInBytes(buf: Bytes, perms: bv16)
    ensures HasBroadPerms(buf, perms) == Some(true) <==>
      && |buf| >= 4 && (|buf| - 4) % 8 == 0 && buf[..4] == [2, 0, 0, 0]
      && exists k: nat :: 8 + 8 * k + 4 <= |buf| && GrantsToMany(buf, k, perms)
  {
    if |buf| >= 4 { TwoIsLittleEndian(buf[0], buf[1], buf[2], buf[3]); }
    if IsAcl(buf) {
      forall k: nat | k < EntryCount(buf) ensures IsBroad(EntryAt(buf, k), perms) <==> GrantsToMany(buf, k, perms) {
        EntryInBytes(buf, k, perms);
      }
      hide GrantsToMany, EntryAt, IsBroad, U32;
      if AnyBroad(Entries(buf), perms) {
        var k: nat :| k < EntryCount(buf) && IsBroad(Entries(buf)[k], perms);
        assert GrantsToMany(buf, k, perms);
      }
      if k: nat :| 8 + 8 * k + 4 <= |buf| && GrantsToMany(buf, k, perms) {
        assert k < EntryCount(buf) && IsBroad(Entries(buf)[k], perms);
      }
    }
  }

  // ---- the owner-only check ----

  /** `effective_perms_are_owner_only`, with the ACL as read from the file if it has one. */
  predicate OwnerOnly(mode: bv32, acl: Option<Bytes>, perms: bv32) {
    mode & perms == 0 || (acl.Some? && HasBroadPerms(acl.value, (perms & 0xFFFF) as bv16) == Some(false))
  }

  ghost predicate IsNarrow(buf: Bytes, perms: bv16) {
    && |buf| >= 4 && (|buf| - 4) % 8 == 0 && buf[..4] == [2, 0, 0, 0]
    && forall k: nat :: 8 + 8 * k + 4 <= |buf| ==> !GrantsToMany(buf, k, perms)
  }

  /** A file is owner-only exactly when its mode has none of the bits, or has an ACL of version
      2 without an entry that grants one of them to many: no ACL, an unreadable one and one of
      another version do not excuse the mode. */
  lemma OwnerOnlyExactly(mode: bv32, acl: Option<Bytes>, perms: bv32)
    ensures OwnerOnly(mode, acl, perms) <==>
      mode & perms == 0 || (acl.Some? && IsNarrow(acl.value, (perms & 0xFFFF) as bv16))
  {
    if acl.Some? {
      var buf, low := acl.value, (perms & 0xFFFF) as bv16;
      VerdictInBytes(buf, low);
      if |buf| >= 4 { TwoIsLittleEndian(buf[0], buf[1], buf[2], buf[3]); }
      hide GrantsToMany, Entries, AnyBroad, U32;
    }
  }

  lemma FewerBitsLow(perms: bv32, more: bv32)
    requires perms & more == perms
    ensures ((perms & 0xFFFF) as bv16) & ((more & 0xFFFF) as bv16) == (perms & 0xFFFF) as bv16
  {
  }

  lemma FewerBitsClear(x: bv32, perms: bv32, more: bv32)
    requires perms & more == perms && x & more == 0
    ensures x & perms == 0
  {
  }

  lemma FewerBitsBroad(x: bv16, perms: bv16, more: bv16)
    requires perms & more == perms && Grants(x, perms)
    ensures Grants(x, more)
  {
  }

  lemma AnyBroadGrows(entries: seq<AclEntry>, perms: bv16, more: bv16)
    requires perms & more == perms && AnyBroad(entries, perms)
    ensures AnyBroad(entries, more)
  {
    var k :| 0 <= k < |entries| && IsBroad(entries[k], perms);
    FewerBitsBroad(entries[k].perm, perms, more);
    assert IsBroad(entries[k], more);
  }

  /** A file that is owner-only for some bits is owner-only for any of them: asking for more
      can only find more. */
  lemma OwnerOnlyIsAntitone(mode: bv32, acl: Option<Bytes>, perms: bv32, more: bv32)
    requires perms & more == perms && OwnerOnly(mode, acl, more)
    ensures OwnerOnly(mode, acl, perms)
  {
    hide IsAcl, Entries, AnyBroad;
    if mode & more == 0 {
      FewerBitsClear(mode, perms, more);
    } else {
      FewerBitsLow(perms, more);
      var low, lowMore := (perms & 0xFFFF) as bv16, (more & 0xFFFF) as bv16;
      var entries := Entries(acl.value);
      if AnyBroad(entries, low) { AnyBroadGrows(entries, low, lowMore); }
    }
  }

  /** The list without its named users and its mask. */
  function WithoutUsers(entries: seq<AclEntry>): seq<AclEntry> {
    if entries == [] then []
    else if entries[0].tag == TAG_USER || entries[0].tag == TAG_MASK then WithoutUsers(entries[1..])
    else [entries[0]] + WithoutUsers(entries[1..])
  }

  lemma AnyBroadCons(entries: seq<AclEntry>, perms: bv16)
    requires entries != []
    ensures AnyBroad(entries, perms) == (IsBroad(entries[0], perms) || AnyBroad(entries[1..], perms))
  {
    hide IsBroad;
    if AnyBroad(entries[1..], perms) {
      var k :| 0 <= k < |entries| - 1 && IsBroad(entries[1..][k], perms);
      assert entries[k + 1] == entries[1..][k];
    }
    if AnyBroad(entries, perms) && !IsBroad(entries[0], perms) {
      var k :| 0 <= k < |entries| && IsBroad(entries[k], perms);
      assert entries[1..][k - 1] == entries[k];
    }
  }

  lemma {:induction false} UsersAreNotBroad(entries: seq<AclEntry>, perms: bv16)
    ensures AnyBroad(WithoutUsers(entries), perms) == AnyBroad(entries, perms)
  {
    if entries != [] {
      UsersAreNotBroad(entries[1..], perms);
      AnyBroadCons(entries, perms);
      hide AnyBroad;
      var rest := WithoutUsers(entries[1..]);
      if entries[0].tag == TAG_USER || entries[0].tag == TAG_MASK {
        assert !IsBroad(entries[0], perms);
        assert WithoutUsers(entries) == rest;
      } else {
        assert WithoutUsers(entries) == [entries[0]] + rest && ([entries[0]] + rest)[1..] == rest;
        AnyBroadCons([entries[0]] + rest, perms);
      }
    }
  }

  /** Named users are explicit grants of the owner: whatever they and the mask are given,
      the verdict is the one without them. */
  lemma NamedUsersAreAccepted(mode: bv32, entries: seq<AclEntry>, perms: bv32)
    ensures OwnerOnly(mode, Some(Encode(entries)), perms) == OwnerOnly(mode, Some(Encode(WithoutUsers(entries))), perms)
  {
    var low := (perms & 0xFFFF) as bv16;
    VerdictOfEncoded(entries, low);
    VerdictOfEncoded(WithoutUsers(entries), low);
    UsersAreNotBroad(entries, low);
    hide HasBroadPerms, Encode, AnyBroad, WithoutUsers;
  }
}
