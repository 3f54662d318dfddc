/** The tag list bootstrap/hboot/atag.c leaves in memory for the kernel, and the walk of atag_priv.h over it. */
module Atag {
  import opened Basics

  type Byte = x: int | 0 <= x < 0x100

  // ---------------------------------------------------------------- words in memory

  function Le32(v: Word): (b: seq<Byte>)
    ensures |b| == 4
  {
    [v % 0x100, v / 0x100 % 0x100, v / 0x1_0000 % 0x100, v / 0x100_0000]
  }

  function Le16(v: int): (b: seq<Byte>)
    requires 0 <= v < 0x1_0000
    ensures |b| == 2
  {
    [v % 0x100, v / 0x100]
  }

  function WordAt(mem: seq<Byte>, at: nat): Word
    requires at + 4 <= |mem|
  {
    var b0: int, b1: int, b2: int, b3: int := mem[at], mem[at + 1], mem[at + 2], mem[at + 3];
    b0 + 0x100 * b1 + 0x1_0000 * b2 + 0x100_0000 * b3
  }

  lemma Digits(v: Word)
    ensures v == v % 0x100 + 0x100 * (v / 0x100 % 0x100) + 0x1_0000 * (v / 0x1_0000 % 0x100)
            + 0x100_0000 * (v / 0x100_0000)
  {
    var h, hh := v / 0x100, v / 0x1_0000;
    assert v == v % 0x100 + 0x100 * h;
    assert hh == h / 0x100 && h == h % 0x100 + 0x100 * hh;
    assert v / 0x100_0000 == hh / 0x100 && hh == hh % 0x100 + 0x100 * (hh / 0x100);
  }

  lemma Le32ReadsBack(mem: seq<Byte>, at: nat, v: Word)
    requires at + 4 <= |mem| && mem[at..at + 4] == Le32(v)
    ensures WordAt(mem, at) == v
  {
    var b := mem[at..at + 4];
    assert mem[at] == b[0] && mem[at + 1] == b[1] && mem[at + 2] == b[2] && mem[at + 3] == b[3];
    Digits(v);
  }

  // ---------------------------------------------------------------- the walk

  datatype Seen = Seen(id: Word, payload: seq<Byte>)

  /** for_each_tag from `at` on: every tag until one of size 0.  None when the walk leaves memory or meets a tag
      smaller than its header. */
  function Walk(mem: seq<Byte>, at: nat): Option<seq<Seen>>
    decreases |mem| - at
  {
    if at + 8 > |mem| then None
    else
      var size := WordAt(mem, at);
      if size == 0 then Some([])
      else if size < 2 || at + 4 * size > |mem| then None
      else
        match Walk(mem, at + 4 * size)
        case None => None
        case Some(rest) => Some([Seen(WordAt(mem, at + 4), mem[at + 8..at + 4 * size])] + rest)
  }

  // ---------------------------------------------------------------- what should be found

  /** A tag of `words` words whose payload starts with `known`; what follows is whatever memory held. */
  datatype Item = Item(id: Word, words: nat, known: seq<Byte>)

  ghost predicate Tagged(mem: seq<Byte>, at: nat, item: Item) {
    && item.words >= 2 && 8 + |item.known| <= 4 * item.words && at + 4 * item.words <= |mem|
    && WordAt(mem, at) == item.words && WordAt(mem, at + 4) == item.id
    && mem[at + 8..at + 8 + |item.known|] == item.known
  }

  function Size(items: seq<Item>): nat {
    if items == [] then 0 else Size(items[..|items| - 1]) + 4 * items[|items| - 1].words
  }

  /** The items lie one behind the other from the start of memory on. */
  ghost predicate Listed(mem: seq<Byte>, items: seq<Item>) {
    items == [] || (Listed(mem, items[..|items| - 1]) && Tagged(mem, Size(items[..|items| - 1]), items[|items| - 1]))
  }

  ghost predicate Found(seen: Seen, item: Item) {
    && seen.id == item.id && |seen.payload| == 4 * (item.words - 2)
    && item.known <= seen.payload
  }

  ghost predicate AllFound(seen: seq<Seen>, items: seq<Item>) {
    |seen| == |items| && forall i :: 0 <= i < |items| ==> Found(seen[i], items[i])
  }

  lemma TaggedStays(mem: seq<Byte>, now: seq<Byte>, at: nat, item: Item, end: nat)
    requires Tagged(mem, at, item) && at + 4 * item.words <= end <= |mem| == |now| && now[..end] == mem[..end]
    ensures Tagged(now, at, item)
  {
    var n := |item.known|;
    assert now[at..at + 8] == now[..end][at..at + 8] == mem[at..at + 8];
    assert forall i :: at <= i < at + 8 ==> now[i] == now[..end][i] && mem[i] == mem[..end][i];
    assert now[at + 8..at + 8 + n] == now[..end][at + 8..at + 8 + n] == mem[at + 8..at + 8 + n];
  }

  /** Items written earlier stay, as long as only memory behind them changes. */
  lemma {:induction false} ListedStays(mem: seq<Byte>, now: seq<Byte>, items: seq<Item>, end: nat)
    requires Listed(mem, items) && Size(items) <= end <= |mem| == |now| && now[..end] == mem[..end]
    ensures Listed(now, items)
  {
    hide Tagged;
    if items != [] {
      var before, item := items[..|items| - 1], items[|items| - 1];
      ListedStays(mem, now, before, end);
      TaggedStays(mem, now, Size(before), item, end);
    }
  }

  function SeenAt(mem: seq<Byte>, at: nat, words: nat): Seen
    requires words >= 2 && at + 4 * words <= |mem|
  {
    Seen(WordAt(mem, at + 4), mem[at + 8..at + 4 * words])
  }

  lemma WalkOne(mem: seq<Byte>, at: nat, item: Item, rest: seq<Seen>)
    requires Tagged(mem, at, item) && Walk(mem, at + 4 * item.words) == Some(rest)
    ensures Walk(mem, at) == Some([SeenAt(mem, at, item.words)] + rest)
    ensures Found(SeenAt(mem, at, item.words), item)
  {
    var seen, n := SeenAt(mem, at, item.words), |item.known|;
    assert item.known == seen.payload[..n];
  }

  ghost function AllSeen(mem: seq<Byte>, items: seq<Item>): (seen: seq<Seen>)
    requires Listed(mem, items)
    ensures |seen| == |items|
  {
    if items == [] then []
    else
      var before := items[..|items| - 1];
      AllSeen(mem, before) + [SeenAt(mem, Size(before), items[|items| - 1].words)]
  }

  lemma {:induction false} WalkFrom(mem: seq<Byte>, items: seq<Item>, rest: seq<Seen>)
    requires Listed(mem, items) && Walk(mem, Size(items)) == Some(rest)
    ensures Walk(mem, 0) == Some(AllSeen(mem, items) + rest) && AllFound(AllSeen(mem, items), items)
  {
    hide Walk, Found;
    if items == [] {
      assert [] + rest == rest;
    } else {
      var before, item := items[..|items| - 1], items[|items| - 1];
      var at := Size(before);
      WalkOne(mem, at, item, rest);
      var last, seen := SeenAt(mem, at, item.words), AllSeen(mem, before);
      WalkFrom(mem, before, [last] + rest);
      assert seen + ([last] + rest) == (seen + [last]) + rest;
    }
  }

  /** Main theorem of the list: the walk finds exactly the items, in order, and stops at ATAG_NONE. */
  lemma WalkRecovers(mem: seq<Byte>, items: seq<Item>)
    requires Listed(mem, items) && Size(items) + 8 <= |mem| && WordAt(mem, Size(items)) == 0
    ensures Walk(mem, 0).Some? && AllFound(Walk(mem, 0).value, items)
  {
    WalkFrom(mem, items, []);
    assert AllSeen(mem, items) + [] == AllSeen(mem, items);
  }

  // ---------------------------------------------------------------- atag_build

  const ATAG_CORE: Word := 0x54410001
  const ATAG_CMDLINE: Word := 0x54410009
  const ATAG_MBM_VERSION: Word := 0xf1000407
  const ATAG_MBM_LOADER_VERSION: Word := 0xf1000408
  const ATAG_FLAT_DEV_TREE_ADDRESS: Word := 0xf100040a
  const ATAG_INITRD2: Word := 0x54420005
  const ATAG_POWERUP_REASON: Word := 0xf1000401
  const ATAG_BATTERY_STATUS_AT_BOOT: Word := 0xf100040e
  const ATAG_CID_RECOVER_BOOT: Word := 0xf1000414

  datatype Image = Image(data: Word, size: Word)

  /** The loaded images, the board's own command line and the configuration words. */
  datatype Env = Env(cmdline: Option<seq<Byte>>, boardCmdline: seq<Byte>, devtree: Option<Image>,
                     initramfs: Option<Image>, powerupReason: Word, battStatus: int, cidRecovery: Byte)

  predicate Sane(env: Env) {
    && (env.cmdline.Some? ==> |env.cmdline.value| + 12 < 0x1_0000_0000)
    && |env.boardCmdline| + 12 < 0x1_0000_0000 && 0 !in env.boardCmdline
    && 0 <= env.battStatus < 0x1_0000
  }

  /** An image's text with its terminator: a newline at the end makes place for it. */
  function ImageText(data: seq<Byte>): seq<Byte> {
    if |data| > 0 && data[|data| - 1] == 0x0a then data[..|data| - 1] + [0] else data + [0]
  }

  function CmdlineText(env: Env): seq<Byte> {
    match env.cmdline
    case Some(data) => ImageText(data)
    case None => env.boardCmdline + [0]
  }

  function CmdlineLength(env: Env): nat {
    if env.cmdline.Some? then |env.cmdline.value| else |env.boardCmdline|
  }

  function Le(fields: seq<Word>): (b: seq<Byte>)
    ensures |b| == 4 * |fields|
  {
    if fields == [] then [] else Le(fields[..|fields| - 1]) + Le32(fields[|fields| - 1])
  }

  function FieldItem(id: Word, fields: seq<Word>): Item {
    Item(id, 2 + |fields|, Le(fields))
  }

  function CmdlineItem(env: Env): Item {
    Item(ATAG_CMDLINE, CmdlineWords(env), CmdlineText(env))
  }

  function ImageItem(id: Word, image: Image): Item {
    FieldItem(id, [image.data, image.size])
  }

  function ImageItems(id: Word, image: Option<Image>): seq<Item> {
    if image.Some? then [ImageItem(id, image.value)] else []
  }

  /** The half word behind the battery status is not written. */
  function BatteryItem(env: Env): Item
    requires Sane(env)
  {
    Item(ATAG_BATTERY_STATUS_AT_BOOT, 3, Le16(env.battStatus))
  }

  function HeadItems(env: Env): seq<Item> {
    [FieldItem(ATAG_CORE, [0, 0x1000, 0]), CmdlineItem(env),
     FieldItem(ATAG_MBM_VERSION, [0x3004]), FieldItem(ATAG_MBM_LOADER_VERSION, [0x3004])]
  }

  /** tag_size rounds the one byte of the last tag away. */
  function TailItems(env: Env): seq<Item>
    requires Sane(env)
  {
    [FieldItem(ATAG_POWERUP_REASON, [env.powerupReason]), BatteryItem(env), Item(ATAG_CID_RECOVER_BOOT, 2, [])]
  }

  function UpToDevtree(env: Env): seq<Item> {
    HeadItems(env) + ImageItems(ATAG_FLAT_DEV_TREE_ADDRESS, env.devtree)
  }

  function UpToInitramfs(env: Env): seq<Item> {
    UpToDevtree(env) + ImageItems(ATAG_INITRD2, env.initramfs)
  }

  /** All tags in order. */
  function Items(env: Env): seq<Item>
    requires Sane(env)
  {
    UpToInitramfs(env) + TailItems(env)
  }

  lemma ItemsAre(env: Env)
    requires Sane(env)
    ensures Items(env) == UpToInitramfs(env) + TailItems(env)
    ensures UpToDevtree(env) == HeadItems(env) + ImageItems(ATAG_FLAT_DEV_TREE_ADDRESS, env.devtree)
    ensures UpToInitramfs(env) == UpToDevtree(env) + ImageItems(ATAG_INITRD2, env.initramfs)
  {
  }

  lemma SizeSnoc(items: seq<Item>, item: Item)
    ensures Size(items + [item]) == Size(items) + 4 * item.words
  {
    assert (items + [item])[..|items|] == items;
  }

  function CmdlineWords(env: Env): nat {
    (8 + CmdlineLength(env) + 1 + 3) / 4
  }

  /** The text and its terminator fit the words given to them. */
  lemma CmdlineFits(env: Env)
    requires Sane(env)
    ensures CmdlineItem(env).id == ATAG_CMDLINE && CmdlineItem(env).words == CmdlineWords(env) < 0x1_0000_0000
    ensures CmdlineItem(env).known == CmdlineText(env)
    ensures CmdlineWords(env) >= 2 && 8 + |CmdlineText(env)| <= 4 * CmdlineWords(env)
  {
  }

  /** The size of the list without ATAG_NONE. */
  function ListSize(env: Env): nat {
    4 * CmdlineWords(env) + 76 + (if env.devtree.Some? then 16 else 0) + (if env.initramfs.Some? then 16 else 0)
  }

  /** Nothing from n on was written. */
  ghost predicate SameBehind(before: seq<Byte>, now: seq<Byte>, n: nat) {
    n <= |before| == |now| && now[n..] == before[n..]
  }

  lemma SameFurther(a: seq<Byte>, b: seq<Byte>, c: seq<Byte>, n: nat, m: nat)
    requires SameBehind(a, b, n) && SameBehind(b, c, m) && n <= m
    ensures SameBehind(a, c, m)
  {
    assert a[m..] == a[n..][m - n..] && b[m..] == b[n..][m - n..];
  }

  lemma SameUnwritten(a: seq<Byte>, n: nat)
    requires n <= |a|
    ensures SameBehind(a, a, n)
  {
  }

  /** One tag more, written behind the others. */
  lemma ListedNext(mem: seq<Byte>, now: seq<Byte>, items: seq<Item>, item: Item, at: nat)
    requires Listed(mem, items) && at == Size(items) <= |mem| == |now| && now[..at] == mem[..at]
    requires Tagged(now, at, item)
    ensures Listed(now, items + [item]) && Size(items + [item]) == at + 4 * item.words
  {
    ListedStays(mem, now, items, at);
    assert (items + [item])[..|items|] == items;
  }

  method Put32(mem: array<Byte>, at: nat, v: Word)
    requires at + 4 <= mem.Length
    modifies mem
    ensures mem[..] == old(mem[..at]) + Le32(v) + old(mem[at + 4..])
  {
    var b := Le32(v);
    mem[at], mem[at + 1], mem[at + 2], mem[at + 3] := b[0], b[1], b[2], b[3];
  }

  /** The header's two words, tag first. */
  method PutHeader(mem: array<Byte>, at: nat, id: Word, size: Word)
    requires at + 8 <= mem.Length
    modifies mem
    ensures mem[..] == old(mem[..at]) + Le32(size) + Le32(id) + old(mem[at + 8..])
  {
    Put32(mem, at + 4, id);
    Put32(mem, at, size);
  }

  /** The fields of a payload, one store each. */
  method PutBody(mem: array<Byte>, at: nat, fields: seq<Word>)
    requires at + 4 * |fields| <= mem.Length
    modifies mem
    ensures mem[..] == old(mem[..at]) + Le(fields) + old(mem[at + 4 * |fields|..])
  {
    ghost var before := mem[..];
    var i := 0;
    assert fields[..0] == [];
    assert before == before[..at] + before[at..];
    while i < |fields|
      invariant 0 <= i <= |fields|
      invariant mem[..] == before[..at] + Le(fields[..i]) + before[at + 4 * i..]
    {
      ghost var now := mem[..];
      Put32(mem, at + 4 * i, fields[i]);
      FieldNext(before, now, mem[..], at, fields, i);
      i := i + 1;
    }
    assert fields[..i] == fields;
  }

  lemma FieldNext(before: seq<Byte>, now: seq<Byte>, next: seq<Byte>, at: nat, fields: seq<Word>, i: nat)
    requires i < |fields| && at + 4 * |fields| <= |before| == |now|
    requires now == before[..at] + Le(fields[..i]) + before[at + 4 * i..]
    requires next == now[..at + 4 * i] + Le32(fields[i]) + now[at + 4 * i + 4..]
    ensures next == before[..at] + Le(fields[..i + 1]) + before[at + 4 * (i + 1)..]
  {
    assert fields[..i + 1][..i] == fields[..i];
    assert Le(fields[..i + 1]) == Le(fields[..i]) + Le32(fields[i]);
    var done, field := Le(fields[..i]), Le32(fields[i]);
    hide *;
    assert now[..at + 4 * i] == before[..at] + done;
    assert now[at + 4 * i + 4..] == before[at + 4 * i + 4..];
  }

  /** A tag of 32-bit fields. */
  method PutFields(mem: array<Byte>, at: nat, id: Word, fields: seq<Word>, ghost items: seq<Item>) returns (next: nat)
    requires at + 8 + 4 * |fields| <= mem.Length && |fields| < 0x100
    requires Listed(mem[..], items) && at == Size(items)
    modifies mem
    ensures Listed(mem[..], items + [FieldItem(id, fields)]) && next == Size(items + [FieldItem(id, fields)])
    ensures next == at + 8 + 4 * |fields| && SameBehind(old(mem[..]), mem[..], next)
  {
    hide *;
    ghost var before := mem[..];
    var size := 2 + |fields|;
    next := at + 4 * size;
    PutHeader(mem, at, id, size);
    ghost var header := mem[..];
    PutBody(mem, at + 8, fields);
    FieldsWritten(before, header, mem[..], at, id, fields, items);
  }

  lemma FieldsWritten(before: seq<Byte>, header: seq<Byte>, now: seq<Byte>, at: nat, id: Word, fields: seq<Word>,
                      items: seq<Item>)
    requires at + 8 + 4 * |fields| <= |before| && |fields| < 0x100
    requires Listed(before, items) && at == Size(items)
    requires header == before[..at] + Le32(2 + |fields|) + Le32(id) + before[at + 8..]
    requires now == header[..at + 8] + Le(fields) + header[at + 8 + 4 * |fields|..]
    ensures var item := FieldItem(id, fields);
            Listed(now, items + [item]) && Size(items + [item]) == at + 8 + 4 * |fields|
    ensures SameBehind(before, now, at + 8 + 4 * |fields|)
  {
    hide *;
    FieldItemIs(id, fields);
    ItemWritten(before, header, now, at, FieldItem(id, fields), Le(fields), items);
  }

  lemma FieldItemIs(id: Word, fields: seq<Word>)
    ensures var item := FieldItem(id, fields);
            item.id == id && item.words == 2 + |fields| && item.known == Le(fields) && |item.known| == 4 * |fields|
  {
  }

  /** A tag written behind the others: its header, then a payload that starts with the item's. */
  lemma ItemWritten(before: seq<Byte>, header: seq<Byte>, now: seq<Byte>, at: nat, item: Item, payload: seq<Byte>,
                    items: seq<Item>)
    requires at + 8 + |payload| <= |before| && at + 4 * item.words <= |before| && item.words < 0x1_0000_0000
    requires item.words >= 2 && 8 + |item.known| <= 4 * item.words && item.known <= payload
    requires Listed(before, items) && at == Size(items)
    requires header == before[..at] + Le32(item.words) + Le32(item.id) + before[at + 8..]
    requires now == header[..at + 8] + payload + header[at + 8 + |payload|..]
    ensures |now| == |before|
    ensures Listed(now, items + [item]) && Size(items + [item]) == at + 4 * item.words
    ensures now[at + 8..at + 8 + |payload|] == payload
    ensures SameBehind(before, now, at + 8 + |payload|)
  {
    var n := |item.known|;
    hide Listed, Le32;
    TagWritten(before, header, now, at, item.words, item.id, payload);
    assert now[at + 8..at + 8 + n] == now[at + 8..at + 8 + |payload|][..n];
    hide WordAt;
    ListedNext(before, now, items, item, at);
  }

  /** A header and behind it a payload that may be shorter than the size says, or longer. */
  lemma TagWritten(before: seq<Byte>, header: seq<Byte>, now: seq<Byte>, at: nat, size: Word, id: Word,
                   payload: seq<Byte>)
    requires at + 8 + |payload| <= |before|
    requires header == before[..at] + Le32(size) + Le32(id) + before[at + 8..]
    requires now == header[..at + 8] + payload + header[at + 8 + |payload|..]
    ensures |now| == |before| && now[..at] == before[..at]
    ensures WordAt(now, at) == size && WordAt(now, at + 4) == id
    ensures now[at + 8..at + 8 + |payload|] == payload
    ensures now[at + 8 + |payload|..] == before[at + 8 + |payload|..]
  {
    var front, n := before[..at], |payload|;
    assert now == front + Le32(size) + Le32(id) + payload + before[at + 8 + n..] by {
      hide WordAt, Le32;
      assert header[..at + 8] == front + Le32(size) + Le32(id);
      assert header[at + 8 + n..] == before[at + 8..][n..] == before[at + 8 + n..];
    }
    HeaderRead(now, front, size, id, payload, before[at + 8 + n..]);
  }

  lemma HeaderRead(mem: seq<Byte>, front: seq<Byte>, size: Word, id: Word, payload: seq<Byte>, rest: seq<Byte>)
    requires mem == front + Le32(size) + Le32(id) + payload + rest
    ensures mem[..|front|] == front
    ensures WordAt(mem, |front|) == size && WordAt(mem, |front| + 4) == id
    ensures mem[|front| + 8..|front| + 8 + |payload|] == payload
    ensures mem[|front| + 8 + |payload|..] == rest
  {
    var at := |front|;
    hide WordAt, Le32;
    Le32ReadsBack(mem, at, size);
    Le32ReadsBack(mem, at + 4, id);
  }

  /** memcpy. */
  method Copy(mem: array<Byte>, at: nat, data: seq<Byte>)
    requires at + |data| <= mem.Length
    modifies mem
    ensures mem[..] == old(mem[..at]) + data + old(mem[at + |data|..])
  {
    ghost var before := mem[..];
    var i := 0;
    while i < |data|
      invariant 0 <= i <= |data|
      invariant forall k :: 0 <= k < mem.Length ==> mem[k] == if at <= k < at + i then data[k - at] else before[k]
    {
      mem[at + i] := data[i];
      i := i + 1;
    }
  }

  /** strlen. */
  method Length(mem: array<Byte>, at: nat, ghost n: nat) returns (len: nat)
    requires at + n < mem.Length && mem[at + n] == 0 && forall k :: at <= k < at + n ==> mem[k] != 0
    ensures len == n
  {
    len := 0;
    while mem[at + len] != 0
      invariant 0 <= len <= n
      decreases n - len
    {
      len := len + 1;
    }
  }

  /** The command line of an image: a newline at its end becomes the terminator.  For an empty image the byte
      looked at is the last of the tag's own identifier. */
  method PutImageCmdline(mem: array<Byte>, at: nat, data: seq<Byte>)
    requires at >= 4 && at + |data| + 1 <= mem.Length && mem[at - 1] == 0x54
    modifies mem
    ensures var text := ImageText(data);
            mem[..] == old(mem[..at]) + text + old(mem[at + |text|..])
  {
    ghost var before := mem[..];
    Copy(mem, at, data);
    ghost var copied := mem[..];
    var n := |data|;
    if mem[at + n - 1] == 0x0a {
      mem[at + n - 1] := 0;
      NewlineGoes(before, copied, mem[..], at, data);
    } else {
      mem[at + n] := 0;
      assert mem[..] == before[..at] + (data + [0]) + before[at + n + 1..];
    }
  }

  lemma NewlineGoes(before: seq<Byte>, copied: seq<Byte>, now: seq<Byte>, at: nat, data: seq<Byte>)
    requires |data| > 0 && at + |data| <= |before| && copied == before[..at] + data + before[at + |data|..]
    requires now == copied[at + |data| - 1 := 0]
    ensures now == before[..at] + (data[..|data| - 1] + [0]) + before[at + |data|..]
  {
  }

  method PutCmdline(mem: array<Byte>, at: nat, env: Env, ghost items: seq<Item>) returns (next: nat)
    requires Sane(env) && at + 4 * CmdlineWords(env) <= mem.Length
    requires Listed(mem[..], items) && at == Size(items)
    modifies mem
    ensures Listed(mem[..], items + [CmdlineItem(env)]) && next == Size(items + [CmdlineItem(env)])
    ensures next == at + 4 * CmdlineWords(env) && SameBehind(old(mem[..]), mem[..], next)
  {
    hide *;
    CmdlineFits(env);
    CmdlineRoom(env, at);
    ghost var before := mem[..];
    Put32(mem, at + 4, ATAG_CMDLINE);
    ghost var a := mem[..];
    LastIdByte(before, a, at);
    var n := PutText(mem, at + 8, env);
    ghost var b := mem[..];
    var size: nat := (8 + n + 1 + 3) / 4;
    next := at + 4 * size;
    Put32(mem, at, size);
    CmdlineWritten(before, a, b, mem[..], at, env, CmdlineText(env), size, next, items);
  }

  lemma CmdlineRoom(env: Env, at: nat)
    requires Sane(env)
    ensures CmdlineWords(env) == (8 + CmdlineLength(env) + 1 + 3) / 4
    ensures at + 8 + CmdlineLength(env) + 1 <= at + 4 * CmdlineWords(env)
    ensures |CmdlineText(env)| <= CmdlineLength(env) + 1
  {
  }

  lemma LastIdByte(before: seq<Byte>, a: seq<Byte>, at: nat)
    requires at + 8 <= |before| && a == before[..at + 4] + Le32(ATAG_CMDLINE) + before[at + 8..]
    ensures a[at + 7] == 0x54
  {
    assert Le32(ATAG_CMDLINE)[3] == 0x54;
  }

  lemma CmdlineWritten(before: seq<Byte>, a: seq<Byte>, b: seq<Byte>, now: seq<Byte>, at: nat, env: Env,
                       text: seq<Byte>, size: nat, next: nat, items: seq<Item>)
    requires Sane(env) && text == CmdlineText(env) && size == CmdlineWords(env) && next == at + 4 * size <= |before|
    requires Listed(before, items) && at == Size(items) && at + 8 + |text| <= |before|
    requires size < 0x1_0000_0000 && a == before[..at + 4] + Le32(ATAG_CMDLINE) + before[at + 8..]
    requires b == a[..at + 8] + text + a[at + 8 + |text|..]
    requires now == b[..at] + Le32(size) + b[at + 4..]
    ensures Listed(now, items + [CmdlineItem(env)]) && Size(items + [CmdlineItem(env)]) == next
    ensures SameBehind(before, now, next)
  {
    CmdlineFits(env);
    var item := CmdlineItem(env);
    var header := before[..at] + Le32(size) + Le32(ATAG_CMDLINE) + before[at + 8..];
    hide *;
    Reordered(before, header, a, b, now, at, size, ATAG_CMDLINE, text);
    ItemWritten(before, header, now, at, item, text, items);
    SameUnwritten(now, next);
    SameFurther(before, now, now, at + 8 + |text|, next);
  }

  method PutText(mem: array<Byte>, at: nat, env: Env) returns (n: nat)
    requires Sane(env) && at >= 4 && at + CmdlineLength(env) + 1 <= mem.Length && mem[at - 1] == 0x54
    modifies mem
    ensures n == CmdlineLength(env)
    ensures var text := CmdlineText(env);
            mem[..] == old(mem[..at]) + text + old(mem[at + |text|..])
  {
    if env.cmdline.Some? {
      PutImageCmdline(mem, at, env.cmdline.value);
      n := |env.cmdline.value|;
    } else {
      Copy(mem, at, env.boardCmdline + [0]);
      n := Length(mem, at, |env.boardCmdline|);
    }
  }

  /** The header's words written around the payload are the header written first. */
  lemma Reordered(before: seq<Byte>, header: seq<Byte>, a: seq<Byte>, b: seq<Byte>, now: seq<Byte>, at: nat,
                  size: Word, id: Word, text: seq<Byte>)
    requires at + 8 + |text| <= |before|
    requires a == before[..at + 4] + Le32(id) + before[at + 8..]
    requires b == a[..at + 8] + text + a[at + 8 + |text|..]
    requires now == b[..at] + Le32(size) + b[at + 4..]
    requires header == before[..at] + Le32(size) + Le32(id) + before[at + 8..]
    ensures now == header[..at + 8] + text + header[at + 8 + |text|..]
  {
    hide Le32;
  }

  /** Battery status: a half word. */
  method PutBattery(mem: array<Byte>, at: nat, env: Env, ghost items: seq<Item>) returns (next: nat)
    requires Sane(env) && at + 12 <= mem.Length
    requires Listed(mem[..], items) && at == Size(items)
    modifies mem
    ensures Listed(mem[..], items + [BatteryItem(env)]) && next == Size(items + [BatteryItem(env)]) == at + 12
    ensures SameBehind(old(mem[..]), mem[..], next)
  {
    ghost var before, item := mem[..], BatteryItem(env);
    ghost var payload := item.known;
    assert item.id == ATAG_BATTERY_STATUS_AT_BOOT && item.words == 3 && |payload| == 2;
    assert payload == Le16(env.battStatus);
    hide *;
    PutHeader(mem, at, ATAG_BATTERY_STATUS_AT_BOOT, 3);
    ghost var header := mem[..];
    Put16(mem, at + 8, env.battStatus);
    ItemWritten(before, header, mem[..], at, item, payload, items);
    next := at + 12;
    SameUnwritten(mem[..], next);
    SameFurther(before, mem[..], mem[..], at + 10, next);
  }

  method Put16(mem: array<Byte>, at: nat, v: int)
    requires at + 2 <= mem.Length && 0 <= v < 0x1_0000
    modifies mem
    ensures mem[..] == old(mem[..at]) + Le16(v) + old(mem[at + 2..])
  {
    var b := Le16(v);
    mem[at], mem[at + 1] := b[0], b[1];
  }

  /** The recovery flag is one byte behind a header that is the whole tag. */
  method PutCid(mem: array<Byte>, at: nat, env: Env, ghost items: seq<Item>) returns (next: nat)
    requires at + 9 <= mem.Length
    requires Listed(mem[..], items) && at == Size(items)
    modifies mem
    ensures var item := Item(ATAG_CID_RECOVER_BOOT, 2, []);
            Listed(mem[..], items + [item]) && next == Size(items + [item]) == at + 8
    ensures mem[at + 8] == env.cidRecovery && SameBehind(old(mem[..]), mem[..], at + 9)
  {
    ghost var before := mem[..];
    PutHeader(mem, at, ATAG_CID_RECOVER_BOOT, 2);
    ghost var header, item, payload := mem[..], Item(ATAG_CID_RECOVER_BOOT, 2, []), [env.cidRecovery];
    mem[at + 8] := env.cidRecovery;
    hide Listed, Le32, Size;
    assert mem[..] == header[..at + 8] + payload + header[at + 9..];
    ItemWritten(before, header, mem[..], at, item, payload, items);
    next := at + 8;
  }

  /** ATAG_NONE. */
  method PutNone(mem: array<Byte>, at: nat, ghost items: seq<Item>)
    requires at + 8 <= mem.Length && Listed(mem[..], items) && at == Size(items)
    modifies mem
    ensures Listed(mem[..], items) && WordAt(mem[..], at) == 0 == WordAt(mem[..], at + 4)
    ensures SameBehind(old(mem[..]), mem[..], at + 8)
  {
    ghost var before := mem[..];
    PutHeader(mem, at, 0, 0);
    hide Listed, Le32, Size, WordAt;
    assert before[..at] == mem[..][..at];
    ListedStays(before, mem[..], items, at);
    assert mem[..] == before[..at] + Le32(0) + Le32(0) + [] + before[at + 8..];
    HeaderRead(mem[..], before[..at], 0, 0, [], before[at + 8..]);
  }

  method BuildHead(mem: array<Byte>, env: Env) returns (tag: nat)
    requires Sane(env) && 44 + 4 * CmdlineWords(env) <= mem.Length
    modifies mem
    ensures Listed(mem[..], HeadItems(env)) && tag == Size(HeadItems(env)) == 44 + 4 * CmdlineWords(env)
    ensures SameBehind(old(mem[..]), mem[..], tag)
  {
    ghost var m0 := mem[..];
    Nothing(m0);
    ghost var core, cmdline := FieldItem(ATAG_CORE, [0, 0x1000, 0]), CmdlineItem(env);
    ghost var mbm, loader := FieldItem(ATAG_MBM_VERSION, [0x3004]), FieldItem(ATAG_MBM_LOADER_VERSION, [0x3004]);
    ghost var items := HeadItems(env);
    assert [core] == [] + [core] && items[..2] == [core] + [cmdline] && items[..3] == items[..2] + [mbm]
           && items == items[..3] + [loader];
    hide *;
    tag := PutFields(mem, 0, ATAG_CORE, [0, 0x1000, 0], []);
    ghost var t1, m1 := tag, mem[..];
    tag := PutCmdline(mem, tag, env, [core]);
    ghost var t2, m2 := tag, mem[..];
    SameFurther(m0, m1, m2, t1, t2);
    tag := PutFields(mem, tag, ATAG_MBM_VERSION, [0x3004], items[..2]);
    ghost var t3, m3 := tag, mem[..];
    SameFurther(m0, m2, m3, t2, t3);
    tag := PutFields(mem, tag, ATAG_MBM_LOADER_VERSION, [0x3004], items[..3]);
    SameFurther(m0, m3, mem[..], t3, tag);
  }

  /** A tag for an image that was loaded. */
  method PutImage(mem: array<Byte>, at: nat, id: Word, image: Option<Image>, ghost items: seq<Item>) returns (tag: nat)
    requires at + (if image.Some? then 16 else 0) <= mem.Length
    requires Listed(mem[..], items) && at == Size(items)
    modifies mem
    ensures Listed(mem[..], items + ImageItems(id, image)) && tag == Size(items + ImageItems(id, image))
    ensures tag == at + if image.Some? then 16 else 0
    ensures SameBehind(old(mem[..]), mem[..], tag)
  {
    hide Listed, Size;
    assert items + [] == items;
    if image.Some? {
      tag := PutFields(mem, at, id, [image.value.data, image.value.size], items);
    } else {
      tag := at;
    }
  }

  method BuildTail(mem: array<Byte>, at: nat, env: Env, ghost items: seq<Item>) returns (tag: nat)
    requires Sane(env) && at + 40 <= mem.Length
    requires Listed(mem[..], items) && at == Size(items)
    modifies mem
    ensures Listed(mem[..], items + TailItems(env)) && tag == Size(items + TailItems(env)) == at + 32
    ensures SameBehind(old(mem[..]), mem[..], tag + 1)
  {
    ghost var m0 := mem[..];
    ghost var i1 := items + [FieldItem(ATAG_POWERUP_REASON, [env.powerupReason])];
    ghost var i2 := i1 + [BatteryItem(env)];
    TailIs(env, items);
    hide *;
    tag := PutFields(mem, at, ATAG_POWERUP_REASON, [env.powerupReason], items);
    ghost var t1, m1 := tag, mem[..];
    tag := PutBattery(mem, tag, env, i1);
    ghost var t2, m2 := tag, mem[..];
    SameFurther(m0, m1, m2, t1, t2);
    tag := PutCid(mem, tag, env, i2);
    SameFurther(m0, m2, mem[..], t2, tag + 1);
  }

  lemma TailIs(env: Env, items: seq<Item>)
    requires Sane(env)
    ensures ((items + [FieldItem(ATAG_POWERUP_REASON, [env.powerupReason])]) + [BatteryItem(env)])
            + [Item(ATAG_CID_RECOVER_BOOT, 2, [])]
         == items + TailItems(env)
  {
    hide FieldItem, BatteryItem;
  }

  lemma SizeIs(env: Env)
    ensures ListSize(env) == 44 + 4 * CmdlineWords(env) + (if env.devtree.Some? then 16 else 0)
            + (if env.initramfs.Some? then 16 else 0) + 32
  {
    hide CmdlineWords;
  }

  /** All tags. */
  method BuildTags(mem: array<Byte>, env: Env) returns (tag: nat)
    requires Sane(env) && ListSize(env) + 8 <= mem.Length
    modifies mem
    ensures Listed(mem[..], Items(env)) && tag == Size(Items(env)) == ListSize(env)
    ensures SameBehind(old(mem[..]), mem[..], tag + 1)
  {
    hide *;
    ghost var m0 := mem[..];
    ghost var head, some, most := HeadItems(env), UpToDevtree(env), UpToInitramfs(env);
    ItemsAre(env);
    SizeIs(env);
    tag := BuildHead(mem, env);
    ghost var t1, m1 := tag, mem[..];
    tag := PutImage(mem, tag, ATAG_FLAT_DEV_TREE_ADDRESS, env.devtree, head);
    ghost var t2, m2 := tag, mem[..];
    SameFurther(m0, m1, m2, t1, t2);
    tag := PutImage(mem, tag, ATAG_INITRD2, env.initramfs, some);
    ghost var t3, m3 := tag, mem[..];
    SameFurther(m0, m2, m3, t2, t3);
    tag := BuildTail(mem, tag, env, most);
    SameFurther(m0, m3, mem[..], t3, tag + 1);
  }

  /** The whole list, with nothing written behind it. */
  method AtagBuild(mem: array<Byte>, env: Env)
    requires Sane(env) && ListSize(env) + 8 <= mem.Length
    modifies mem
    ensures Built(env, mem[..])
    ensures mem[ListSize(env) + 8..] == old(mem[ListSize(env) + 8..])
  {
    ghost var m0 := mem[..];
    hide Listed, Items, ListSize;
    var tag := BuildTags(mem, env);
    ghost var m1 := mem[..];
    PutNone(mem, tag, Items(env));
    SameFurther(m0, m1, mem[..], tag + 1, tag + 8);
  }

  /** Memory holds the tags and behind them ATAG_NONE. */
  ghost predicate Built(env: Env, mem: seq<Byte>) {
    && Sane(env) && Listed(mem, Items(env)) && Size(Items(env)) == ListSize(env) && ListSize(env) + 8 <= |mem|
    && WordAt(mem, ListSize(env)) == 0 == WordAt(mem, ListSize(env) + 4)
  }

  // ---------------------------------------------------------------- what the kernel finds

  /** Main theorem: the kernel's walk finds the tags atag_build wrote and no others, in order, with their
      contents. */
  lemma KernelFindsTags(env: Env, mem: seq<Byte>)
    requires Built(env, mem)
    ensures Walk(mem, 0).Some? && AllFound(Walk(mem, 0).value, Items(env))
  {
    hide Items, ListSize, Listed, AllFound;
    WalkRecovers(mem, Items(env));
  }

  /** The string at the start of some bytes: up to a terminator, if there is one. */
  function CString(b: seq<Byte>): (s: seq<Byte>) {
    if b == [] || b[0] == 0 then [] else [b[0]] + CString(b[1..])
  }

  lemma {:induction false} CStringReads(b: seq<Byte>, s: seq<Byte>)
    requires s + [0] <= b
    ensures CString(b) == CString(s)
    ensures 0 !in s ==> CString(b) == s
  {
    assert b[0] == (s + [0])[0];
    if s != [] {
      assert s[1..] + [0] == (s + [0])[1..] <= b[1..];
      CStringReads(b[1..], s[1..]);
    }
  }

  /** What the command line should read. */
  function Cmdline(env: Env): seq<Byte> {
    match env.cmdline
    case Some(data) => if |data| > 0 && data[|data| - 1] == 0x0a then data[..|data| - 1] else data
    case None => env.boardCmdline
  }

  /** The command line of any length, the empty one included, reads back from its tag, without one newline
      at its end and, should there be one, up to its first zero byte. */
  lemma CmdlineReadsBack(env: Env, mem: seq<Byte>)
    requires Built(env, mem)
    ensures Walk(mem, 0).Some? && |Walk(mem, 0).value| > 1
    ensures var found := Walk(mem, 0).value[1];
            && found.id == ATAG_CMDLINE && CString(found.payload) == CString(Cmdline(env))
            && (0 !in Cmdline(env) ==> CString(found.payload) == Cmdline(env))
  {
    KernelFindsTags(env, mem);
    assert Items(env)[1] == CmdlineItem(env);
    CmdlineMeans(env, Walk(mem, 0).value[1]);
  }

  // ---------------------------------------------------------------- what the kernel reads

  /** A tag as the kernel understands it: its identifier, and the numbers its payload holds. */
  datatype Meaning =
    | CoreTag(flags: Word, pageSize: Word, rootDev: Word)
    | CmdlineTag(text: seq<Byte>)
    | MbmVersionTag(version: Word)
    | MbmLoaderVersionTag(version: Word)
    | DevTreeTag(address: Word, size: Word)
    | InitrdTag(start: Word, size: Word)
    | PowerupTag(reason: Word)
    | BatteryTag(status: int)
    | CidRecoverTag
    | UnknownTag

  function Parse(seen: Seen): Meaning {
    var p := seen.payload;
    if seen.id == 0x54410001 && |p| == 12 then CoreTag(WordAt(p, 0), WordAt(p, 4), WordAt(p, 8))
    else if seen.id == 0x54410009 then CmdlineTag(CString(p))
    else if seen.id == 0xf1000407 && |p| == 4 then MbmVersionTag(WordAt(p, 0))
    else if seen.id == 0xf1000408 && |p| == 4 then MbmLoaderVersionTag(WordAt(p, 0))
    else if seen.id == 0xf100040a && |p| == 8 then DevTreeTag(WordAt(p, 0), WordAt(p, 4))
    else if seen.id == 0x54420005 && |p| == 8 then InitrdTag(WordAt(p, 0), WordAt(p, 4))
    else if seen.id == 0xf1000401 && |p| == 4 then PowerupTag(WordAt(p, 0))
    else if seen.id == 0xf100040e && |p| == 4 then BatteryTag(p[0] as int + 0x100 * (p[1] as int))
    else if seen.id == 0xf1000414 && |p| == 0 then CidRecoverTag
    else UnknownTag
  }

  /** What the kernel is to be told, in order. */
  function Told(env: Env): seq<Meaning> {
    [CoreTag(0, 4096, 0), CmdlineTag(CString(Cmdline(env))), MbmVersionTag(0x3004), MbmLoaderVersionTag(0x3004)]
    + (match env.devtree case Some(image) => [DevTreeTag(image.data, image.size)] case None => [])
    + (match env.initramfs case Some(image) => [InitrdTag(image.data, image.size)] case None => [])
    + [PowerupTag(env.powerupReason), BatteryTag(env.battStatus), CidRecoverTag]
  }

  lemma {:induction false} FieldsReadBack(b: seq<Byte>, fields: seq<Word>, k: nat)
    requires Le(fields) <= b && k < |fields|
    ensures 4 * k + 4 <= |b| && WordAt(b, 4 * k) == fields[k]
    decreases fields
  {
    hide Le32;
    var n := |fields| - 1;
    var front := Le(fields[..n]);
    assert Le(fields) == front + Le32(fields[n]);
    if k == n {
      assert b[4 * k..4 * k + 4] == Le(fields)[4 * k..4 * k + 4] == Le32(fields[n]);
      Le32ReadsBack(b, 4 * k, fields[n]);
    } else {
      assert front <= b;
      FieldsReadBack(b, fields[..n], k);
    }
  }

  /** Whatever memory holds behind the known part, the tag means this. */
  ghost predicate Means(item: Item, meaning: Meaning) {
    forall seen :: Found(seen, item) ==> Parse(seen) == meaning
  }

  ghost predicate AllMean(items: seq<Item>, meanings: seq<Meaning>) {
    |items| == |meanings| && forall i :: 0 <= i < |items| ==> Means(items[i], meanings[i])
  }

  lemma AllMeanConcat(a: seq<Item>, b: seq<Item>, x: seq<Meaning>, y: seq<Meaning>)
    requires AllMean(a, x) && AllMean(b, y)
    ensures AllMean(a + b, x + y)
  {
    hide Means;
  }

  lemma ThreeFields(id: Word, x: Word, y: Word, z: Word, seen: Seen)
    requires Found(seen, FieldItem(id, [x, y, z]))
    ensures seen.id == id && |seen.payload| == 12
    ensures WordAt(seen.payload, 0) == x && WordAt(seen.payload, 4) == y && WordAt(seen.payload, 8) == z
  {
    hide Le, WordAt;
    FieldsReadBack(seen.payload, [x, y, z], 0);
    FieldsReadBack(seen.payload, [x, y, z], 1);
    FieldsReadBack(seen.payload, [x, y, z], 2);
  }

  lemma TwoFields(id: Word, x: Word, y: Word, seen: Seen)
    requires Found(seen, FieldItem(id, [x, y]))
    ensures seen.id == id && |seen.payload| == 8 && WordAt(seen.payload, 0) == x && WordAt(seen.payload, 4) == y
  {
    hide Le, WordAt;
    FieldsReadBack(seen.payload, [x, y], 0);
    FieldsReadBack(seen.payload, [x, y], 1);
  }

  lemma OneField(id: Word, x: Word, seen: Seen)
    requires Found(seen, FieldItem(id, [x]))
    ensures seen.id == id && |seen.payload| == 4 && WordAt(seen.payload, 0) == x
  {
    hide Le, WordAt;
    FieldsReadBack(seen.payload, [x], 0);
  }

  lemma CmdlineMeans(env: Env, seen: Seen)
    requires Sane(env) && Found(seen, CmdlineItem(env))
    ensures seen.id == ATAG_CMDLINE && CString(seen.payload) == CString(Cmdline(env))
    ensures 0 !in Cmdline(env) ==> CString(seen.payload) == Cmdline(env)
  {
    assert CmdlineText(env) == Cmdline(env) + [0];
    CStringReads(seen.payload, Cmdline(env));
  }

  lemma HeadMeans(env: Env)
    requires Sane(env)
    ensures AllMean(HeadItems(env), Told(env)[..4])
  {
    hide WordAt, Le, CString, Cmdline, CmdlineItem, FieldItem, Found;
    forall seen | Found(seen, HeadItems(env)[0]) ensures Parse(seen) == Told(env)[0] {
      ThreeFields(ATAG_CORE, 0, 0x1000, 0, seen);
    }
    forall seen | Found(seen, HeadItems(env)[1]) ensures Parse(seen) == Told(env)[1] { CmdlineMeans(env, seen); }
    forall seen | Found(seen, HeadItems(env)[2]) ensures Parse(seen) == Told(env)[2] {
      OneField(ATAG_MBM_VERSION, 0x3004, seen);
    }
    forall seen | Found(seen, HeadItems(env)[3]) ensures Parse(seen) == Told(env)[3] {
      OneField(ATAG_MBM_LOADER_VERSION, 0x3004, seen);
    }
  }

  lemma DevTreeMeans(image: Image)
    ensures Means(ImageItem(ATAG_FLAT_DEV_TREE_ADDRESS, image), DevTreeTag(image.data, image.size))
  {
    hide WordAt, Le;
    forall seen | Found(seen, ImageItem(ATAG_FLAT_DEV_TREE_ADDRESS, image))
      ensures Parse(seen) == DevTreeTag(image.data, image.size)
    {
      TwoFields(ATAG_FLAT_DEV_TREE_ADDRESS, image.data, image.size, seen);
    }
  }

  lemma InitrdMeans(image: Image)
    ensures Means(ImageItem(ATAG_INITRD2, image), InitrdTag(image.data, image.size))
  {
    hide WordAt, Le;
    forall seen | Found(seen, ImageItem(ATAG_INITRD2, image)) ensures Parse(seen) == InitrdTag(image.data, image.size) {
      TwoFields(ATAG_INITRD2, image.data, image.size, seen);
    }
  }

  lemma BatteryMeans(env: Env, seen: Seen)
    requires Sane(env) && Found(seen, BatteryItem(env))
    ensures Parse(seen) == BatteryTag(env.battStatus)
  {
    var known := Le16(env.battStatus);
    assert seen.payload[0] == known[0] && seen.payload[1] == known[1];
  }

  lemma TailMeans(env: Env)
    requires Sane(env)
    ensures AllMean(TailItems(env), [PowerupTag(env.powerupReason), BatteryTag(env.battStatus), CidRecoverTag])
  {
    hide WordAt, Le, FieldItem, BatteryItem;
    var items := TailItems(env);
    forall seen | Found(seen, items[0]) ensures Parse(seen) == PowerupTag(env.powerupReason) {
      OneField(ATAG_POWERUP_REASON, env.powerupReason, seen);
    }
    forall seen | Found(seen, items[1]) ensures Parse(seen) == BatteryTag(env.battStatus) { BatteryMeans(env, seen); }
    assert Means(items[1], BatteryTag(env.battStatus));
    assert Means(items[2], CidRecoverTag);
  }

  lemma ItemsMean(env: Env)
    requires Sane(env)
    ensures AllMean(Items(env), Told(env))
  {
    HeadMeans(env);
    TailMeans(env);
    var head := Told(env)[..4];
    var tree := match env.devtree case Some(image) => [DevTreeTag(image.data, image.size)] case None => [];
    var initrd := match env.initramfs case Some(image) => [InitrdTag(image.data, image.size)] case None => [];
    var tail := [PowerupTag(env.powerupReason), BatteryTag(env.battStatus), CidRecoverTag];
    if env.devtree.Some? { DevTreeMeans(env.devtree.value); }
    if env.initramfs.Some? { InitrdMeans(env.initramfs.value); }
    hide Means, HeadItems, TailItems, ImageItem;
    assert Told(env) == head + tree + initrd + tail;
    AllMeanConcat(HeadItems(env), ImageItems(ATAG_FLAT_DEV_TREE_ADDRESS, env.devtree), head, tree);
    AllMeanConcat(UpToDevtree(env), ImageItems(ATAG_INITRD2, env.initramfs), head + tree, initrd);
    AllMeanConcat(UpToInitramfs(env), TailItems(env), head + tree + initrd, tail);
  }

  /** Main theorem of the contents: tag by tag, the kernel reads the numbers and the text it is to be told, and
      nothing else. */
  lemma KernelReadsWhatIsTold(env: Env, mem: seq<Byte>)
    requires Built(env, mem)
    ensures Walk(mem, 0).Some?
    ensures var found := Walk(mem, 0).value;
            |found| == |Told(env)| && forall i :: 0 <= i < |found| ==> Parse(found[i]) == Told(env)[i]
  {
    hide Items, Told, Listed, Found, Parse, Walk;
    KernelFindsTags(env, mem);
    ItemsMean(env);
    var found := Walk(mem, 0).value;
    forall i | 0 <= i < |found| ensures Parse(found[i]) == Told(env)[i] {
      assert Found(found[i], Items(env)[i]) && Means(Items(env)[i], Told(env)[i]);
    }
  }

  /** The recovery flag's place is the first byte of ATAG_NONE, whose size is written last: it reads back
      exactly if it was 0. */
  lemma CidReadsBackIff(env: Env, mem: seq<Byte>)
    requires Built(env, mem)
    ensures var tag := ListSize(env) - 8;
            && WordAt(mem, tag + 4) == ATAG_CID_RECOVER_BOOT
            && (mem[tag + 8] == env.cidRecovery <==> env.cidRecovery == 0)
  {
    var items := Items(env);
    var before := items[..|items| - 1];
    SizeSnoc(before, items[|items| - 1]);
    assert items == before + [items[|items| - 1]];
    assert Tagged(mem, Size(before), items[|items| - 1]);
    ZeroWord(mem, ListSize(env));
  }

  lemma ZeroWord(mem: seq<Byte>, at: nat)
    requires at + 4 <= |mem| && WordAt(mem, at) == 0
    ensures mem[at] == 0
  {
  }

  lemma Nothing(mem: seq<Byte>)
    ensures Listed(mem, []) && Size([]) == 0
  {
  }
}
