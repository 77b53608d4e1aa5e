/** Finding room for the stubs near the module, and what being near buys. */
module AllocNear {
  import opened Options
  import opened Instrumentation

  /** One answer of a memory query. */
  datatype Region = Region(base: nat, size: nat, free: bool)

  const REACH := 0x4000_0000

  /** The address space from 0 up, region by region; there is nothing past its end. */
  ghost predicate Space(regions: seq<Region>) {
    && regions != [] && regions[0].base == 0
    && (forall i :: 0 <= i < |regions| ==> regions[i].size > 0)
    && (forall i :: 0 <= i < |regions| - 1 ==> regions[i].base + regions[i].size == regions[i + 1].base)
  }

  function End(r: Region): nat {
    r.base + r.size
  }

  lemma {:induction false} SpaceAscends(regions: seq<Region>, i: nat, j: nat)
    requires Space(regions) && i < j < |regions|
    ensures End(regions[i]) <= regions[j].base
    decreases j
  {
    if i < j - 1 {
      SpaceAscends(regions, i, j - 1);
    }
  }

  predicate Contains(r: Region, a: nat) {
    r.base <= a < End(r)
  }

  /** The region of an address, when it is in the space. */
  function Query(regions: seq<Region>, a: nat): (k: Option<nat>)
    ensures k.Some? ==> k.value < |regions| && Contains(regions[k.value], a)
    ensures k.None? ==> forall i :: 0 <= i < |regions| ==> !Contains(regions[i], a)
  {
    if regions == [] then None
    else if Contains(regions[|regions| - 1], a) then Some(|regions| - 1)
    else Query(regions[..|regions| - 1], a)
  }

  /** An aligned address from which size bytes lie inside one free region. */
  ghost predicate Usable(regions: seq<Region>, gran: nat, size: nat, q: nat)
    requires gran > 0
  {
    q % gran == 0 && exists i :: 0 <= i < |regions| && Fits(regions[i], size, q)
  }

  predicate Fits(r: Region, size: nat, q: nat) {
    r.free && r.base <= q && q + size <= End(r)
  }

  function RoundDown(a: nat, gran: nat): nat
    requires gran > 0
  {
    a / gran * gran
  }

  lemma Rounding(a: nat, gran: nat, q: nat)
    requires gran > 0 && q % gran == 0
    ensures RoundDown(a, gran) % gran == 0 && RoundDown(a, gran) <= a < RoundDown(a, gran) + gran
    ensures q <= a ==> q <= RoundDown(a, gran)
  {
    var n := a / gran;
    assert a == n * gran + a % gran;
    assert n * gran % gran == 0 by { MultipleMod(n, gran); }
    var m := q / gran;
    assert q == m * gran;
    if m > n {
      Monotone(n + 1, m, gran);
      assert (n + 1) * gran == n * gran + gran;
    } else {
      Monotone(m, n, gran);
    }
  }

  lemma Monotone(a: nat, b: nat, gran: nat)
    requires a <= b
    ensures a * gran <= b * gran
  {
  }

  lemma MultipleMod(n: nat, gran: nat)
    requires gran > 0
    ensures n * gran % gran == 0
  {
    var q, r := n * gran / gran, n * gran % gran;
    assert n * gran == q * gran + r && (q + 1) * gran == q * gran + gran;
    if q < n {
      Monotone(q + 1, n, gran);
    } else if q > n {
      Monotone(n, q, gran);
    }
  }

  /** The slot tried in a region: its lowest aligned address going up, its highest going down. */
  function Slot(r: Region, gran: nat, size: nat, up: bool): nat
    requires gran > 0 && r.size >= size
  {
    if up then RoundDown(r.base + gran - 1, gran) else RoundDown(End(r) - size, gran)
  }

  /** If the tried slot does not fit, nothing in the region does; if it does, it is the nearest to where the search starts. */
  lemma SlotIsExtreme(r: Region, gran: nat, size: nat, up: bool, q: nat)
    requires gran > 0 && r.free && r.size >= size && q % gran == 0 && Fits(r, size, q)
    ensures Fits(r, size, Slot(r, gran, size, up)) && if up then Slot(r, gran, size, up) <= q else q <= Slot(r, gran, size, up)
  {
    if up {
      Rounding(r.base + gran - 1, gran, q);
      var s := RoundDown(r.base + gran - 1, gran);
      if q < s {
        AlignedGap(q, s, gran);
      }
    } else {
      Rounding(End(r) - size, gran, q);
    }
  }

  lemma AlignedGap(q: nat, s: nat, gran: nat)
    requires gran > 0 && q % gran == 0 && s % gran == 0 && q < s
    ensures q + gran <= s
  {
    var m, n := q / gran, s / gran;
    assert q == m * gran && s == n * gran;
    if m < n {
      Monotone(m + 1, n, gran);
      assert (m + 1) * gran == m * gran + gran;
    } else {
      Monotone(n, m, gran);
    }
  }

  function Distance(a: nat, b: nat): nat {
    if a > b then a - b else b - a
  }

  /** Nothing usable on the way from the module to an address. */
  ghost predicate NoneUsable(regions: seq<Region>, gran: nat, size: nat, lo: nat, hi: nat)
    requires gran > 0
  {
    forall q :: lo <= q < hi ==> !Usable(regions, gran, size, q)
  }

  /** A usable address in the region of an address is a slot of that region. */
  lemma OnlyHere(regions: seq<Region>, gran: nat, size: nat, k: nat, q: nat)
    requires Space(regions) && gran > 0 && size > 0 && k < |regions| && Contains(regions[k], q) && Usable(regions, gran, size, q)
    ensures Fits(regions[k], size, q)
  {
    var i :| 0 <= i < |regions| && Fits(regions[i], size, q);
    if i < k {
      SpaceAscends(regions, i, k);
    } else if k < i {
      SpaceAscends(regions, k, i);
    }
  }

  ghost predicate Apart(regions: seq<Region>, gran: nat, size: nat, image: nat, up: bool, a: nat)
    requires gran > 0
  {
    if up then NoneUsable(regions, gran, size, image, a) else NoneUsable(regions, gran, size, a + 1, image + 1)
  }

  /** A region without a fitting slot moves the search to the next one. */
  lemma SkipRegion(regions: seq<Region>, gran: nat, size: nat, image: nat, up: bool, a: nat, k: nat)
    requires Space(regions) && gran > 0 && size > 0 && k < |regions| && Contains(regions[k], a)
    requires Apart(regions, gran, size, image, up, a) && (if up then image <= a else a <= image)
    requires regions[k].free && regions[k].size >= size ==> !Fits(regions[k], size, Slot(regions[k], gran, size, up))
    ensures if up then NoneUsable(regions, gran, size, image, End(regions[k])) else NoneUsable(regions, gran, size, regions[k].base, image + 1)
  {
    forall q: nat | Contains(regions[k], q) ensures !Usable(regions, gran, size, q) {
      if Usable(regions, gran, size, q) {
        OnlyHere(regions, gran, size, k, q);
        SlotIsExtreme(regions[k], gran, size, up, q);
      }
    }
  }

  /** The slot found is the nearest in its direction. */
  lemma TakeRegion(regions: seq<Region>, gran: nat, size: nat, image: nat, up: bool, a: nat, k: nat)
    requires Space(regions) && gran > 0 && size > 0 && k < |regions| && Contains(regions[k], a)
    requires Apart(regions, gran, size, image, up, a) && (if up then image <= a else a <= image)
    requires regions[k].free && regions[k].size >= size && Fits(regions[k], size, Slot(regions[k], gran, size, up))
    ensures var s := Slot(regions[k], gran, size, up);
      Usable(regions, gran, size, s) && if up then NoneUsable(regions, gran, size, image, s) else NoneUsable(regions, gran, size, s + 1, image + 1)
  {
    var s := Slot(regions[k], gran, size, up);
    Rounding(if up then regions[k].base + gran - 1 else End(regions[k]) - size, gran, 0);
    forall q: nat | if up then image <= q < s else s < q <= image ensures !Usable(regions, gran, size, q) {
      if Usable(regions, gran, size, q) && Contains(regions[k], q) {
        OnlyHere(regions, gran, size, k, q);
        SlotIsExtreme(regions[k], gran, size, up, q);
      }
    }
  }

  /** What a search in one direction answers: the nearest usable address, or that there is none within reach. */
  ghost predicate Nearest(regions: seq<Region>, gran: nat, size: nat, image: nat, up: bool, slot: Option<nat>)
    requires gran > 0
  {
    if slot.Some? then
      && Usable(regions, gran, size, slot.value) && Distance(slot.value, image) <= REACH
      && (if up then image < slot.value && NoneUsable(regions, gran, size, image, slot.value)
          else slot.value < image && NoneUsable(regions, gran, size, slot.value + 1, image + 1))
    else if up then NoneUsable(regions, gran, size, image, image + REACH + 1)
    else forall q :: 0 < q <= image && q + REACH >= image ==> !Usable(regions, gran, size, q)
  }

  lemma NextRegion(regions: seq<Region>, k: nat)
    requires Space(regions) && k < |regions|
    ensures Query(regions, End(regions[k])) == if k + 1 < |regions| then Some(k + 1) else None
    ensures regions[k].base > 0 ==> k > 0 && Query(regions, regions[k].base - 1) == Some(k - 1)
    ensures k + 1 < |regions| ==> regions[k + 1].base == End(regions[k])
    ensures k > 0 ==> End(regions[k - 1]) == regions[k].base
  {
    var n := Query(regions, End(regions[k]));
    if n.Some? && n.value < k {
      SpaceAscends(regions, n.value, k);
    } else if n.Some? && k + 1 < n.value {
      SpaceAscends(regions, k + 1, n.value);
    }
    if regions[k].base > 0 {
      var m := Query(regions, regions[k].base - 1);
      assert Contains(regions[k - 1], regions[k].base - 1);
      if m.value < k - 1 {
        SpaceAscends(regions, m.value, k - 1);
      } else if k < m.value {
        SpaceAscends(regions, k, m.value);
      }
    }
  }

  /** The module's own region is not free. */
  predicate Loaded(regions: seq<Region>, image: nat) {
    Query(regions, image).Some? && !regions[Query(regions, image).value].free
  }

  /** The search stands at the module, or at the near end of a region on its side. */
  predicate Standing(regions: seq<Region>, image: nat, up: bool, addr: nat) {
    var k := Query(regions, addr);
    if up then image <= addr && (addr == image || (k.Some? ==> regions[k.value].base == addr))
    else k.Some? && addr <= image && (addr == image || End(regions[k.value]) == addr + 1)
  }

  lemma PastTheEnd(regions: seq<Region>, gran: nat, size: nat, a: nat)
    requires Space(regions) && gran > 0 && size > 0 && Query(regions, a).None?
    ensures forall q :: q >= a ==> !Usable(regions, gran, size, q)
  {
    var last := |regions| - 1;
    if a < End(regions[last]) {
      Covered(regions, a, last);
    }
    forall q | q >= a ensures !Usable(regions, gran, size, q) {
      forall i | 0 <= i < |regions| ensures !Fits(regions[i], size, q) {
        if i < last {
          SpaceAscends(regions, i, last);
        }
      }
    }
  }

  lemma {:induction false} Covered(regions: seq<Region>, a: nat, k: nat)
    requires Space(regions) && k < |regions| && a < End(regions[k])
    ensures exists i :: 0 <= i < |regions| && Contains(regions[i], a)
  {
    if a < regions[k].base {
      assert k > 0 && End(regions[k - 1]) == regions[k].base;
      Covered(regions, a, k - 1);
    } else {
      assert Contains(regions[k], a);
    }
  }

  method Search(regions: seq<Region>, gran: nat, size: nat, image: nat, up: bool) returns (slot: Option<nat>)
    requires Space(regions) && gran > 0 && size > 0 && Loaded(regions, image)
    ensures Nearest(regions, gran, size, image, up, slot)
  {
    hide Space, Usable, Slot;
    var addr: nat := image;
    var at := Query(regions, addr);
    while at.Some?
      invariant at == Query(regions, addr) && Standing(regions, image, up, addr)
      invariant Apart(regions, gran, size, image, up, addr)
      decreases if at.None? then 0 else if up then |regions| - at.value else at.value + 1
    {
      var k := at.value;
      var r := regions[k];
      if r.free && r.size >= size {
        var base := Slot(r, gran, size, up);
        if Fits(r, size, base) {
          TakeRegion(regions, gran, size, image, up, addr, k);
          return if Distance(base, image) > REACH then None else Some(base);
        }
      }
      SkipRegion(regions, gran, size, image, up, addr, k);
      NextRegion(regions, k);
      if !up && r.base <= gran {
        NothingLower(regions, gran, size, r.base);
        return None;
      }
      addr := if up then End(r) else r.base - 1;
      if Distance(addr, image) > REACH {
        return None;
      }
      at := Query(regions, addr);
    }
    PastTheEnd(regions, gran, size, addr);
    return None;
  }

  /** The only aligned address below the granularity is 0. */
  lemma NothingLower(regions: seq<Region>, gran: nat, size: nat, base: nat)
    requires gran > 0 && base <= gran
    ensures forall q :: 0 < q < base ==> !Usable(regions, gran, size, q)
  {
  }

  /**
   The address of the region for the stubs, or 0. anywhere is what the system answers when it is asked for address 0,
   which it takes as a request for any place at all.
   */
  method AllocateNear(regions: seq<Region>, gran: nat, size: nat, image: nat, anywhere: nat) returns (p: nat, slot: Option<nat>)
    requires Space(regions) && gran > 0 && size > 0 && Loaded(regions, image)
    ensures p == if slot.None? then 0 else if slot == Some(0) then anywhere else slot.value
    ensures slot.Some? ==> Usable(regions, gran, size, slot.value) && Distance(slot.value, image) <= REACH
    ensures slot.None? ==> forall q :: 0 < q && Distance(q, image) <= REACH ==> !Usable(regions, gran, size, q)
    ensures slot.Some? && slot.value > image ==> NoneUsable(regions, gran, size, image, slot.value)
    ensures slot.Some? && slot.value < image ==>
      NoneUsable(regions, gran, size, image, image + REACH + 1) && NoneUsable(regions, gran, size, slot.value + 1, image + 1)
  {
    slot := Search(regions, gran, size, image, true);
    if slot.Some? {
      return slot.value, slot;
    }
    slot := Search(regions, gran, size, image, false);
    return if slot.None? then 0 else if slot.value == 0 then anywhere else slot.value, slot;
  }

  /** The slot can be address 0: then where the region lands is up to the system. */
  lemma NullSlotHappens()
    ensures var regions := [Region(0, 0x2_0000, true), Region(0x2_0000, 0x1_0000_0000, false)];
      && Space(regions) && Loaded(regions, 0x2_0000)
      && Nearest(regions, 0x1_0000, 0x2_0000, 0x2_0000, true, None)
      && Nearest(regions, 0x1_0000, 0x2_0000, 0x2_0000, false, Some(0))
  {
    var regions := [Region(0, 0x2_0000, true), Region(0x2_0000, 0x1_0000_0000, false)];
    assert Query(regions, 0x2_0000) == Some(1);
    assert Fits(regions[0], 0x2_0000, 0);
    assert Usable(regions, 0x1_0000, 0x2_0000, 0);
    forall q: nat | q > 0 ensures !Usable(regions, 0x1_0000, 0x2_0000, q) {
      assert !Fits(regions[0], 0x2_0000, q);
    }
  }

  // ---- what being near buys ------------------------------------------------------------------------------------------------

  predicate InReach(p: nat, mark: nat, at: nat) {
    Detour(at, p + mark, 5).Some?
  }

  /** Every detour of the image into a region of up to 2^30 bytes reaches, wherever near the module the region is. */
  ghost predicate AllReach(image: nat, imageSize: nat, size: nat) {
    forall p: nat, mark: nat, at: nat ::
      Distance(p, image) <= REACH && mark < size && image <= at < image + imageSize ==> InReach(p, mark, at)
  }

  /** This holds exactly for images of up to 2^30 - 4 bytes. */
  lemma DetoursReach(image: nat, imageSize: nat, size: nat)
    requires image >= REACH && 0 < size <= REACH
    ensures AllReach(image, imageSize, size) <==> imageSize <= REACH - 4
  {
    if imageSize > REACH - 4 {
      assert !InReach(image - REACH, 0, image + REACH - 4);
    }
  }
}
