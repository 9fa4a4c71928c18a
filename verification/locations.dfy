/**
 * Shelf labels `Zone-Aisle-Slot` (`A-1-2`): a capital zone letter, then the
 * aisle and slot as single decimal digits, joined by dashes. Products carry
 * one as their location and the shelf browser uses them as shelf ids.
 */
module Locations {
  import opened Text

  predicate IsShelfLabel(s: string) {
    && |s| == 5
    && IsUpper(s[0])
    && s[1] == '-'
    && IsDigit(s[2])
    && s[3] == '-'
    && IsDigit(s[4])
  }

  /** Zone number: 0 for `A`, 1 for `B`, … */
  function ZoneOf(s: string): nat
    requires IsShelfLabel(s)
  {
    s[0] as int - 'A' as int
  }

  function AisleOf(s: string): nat
    requires IsShelfLabel(s)
  {
    s[2] as int - '0' as int
  }

  function SlotOf(s: string): nat
    requires IsShelfLabel(s)
  {
    s[4] as int - '0' as int
  }

  /**
   * `${String.fromCharCode(65 + zone)}-${aisle}-${slot}`: a well-formed label
   * from which the three numbers read back unchanged.
   */
  function Label(zone: nat, aisle: nat, slot: nat): (r: string)
    requires zone < 26 && aisle < 10 && slot < 10
    ensures IsShelfLabel(r)
    ensures ZoneOf(r) == zone && AisleOf(r) == aisle && SlotOf(r) == slot
  {
    [('A' as int + zone) as char, '-'] + NatToString(aisle) + "-" + NatToString(slot)
  }

  /** Every well-formed label is the one built from its own three numbers. */
  lemma LabelOfParts(s: string)
    requires IsShelfLabel(s)
    ensures ZoneOf(s) < 26 && AisleOf(s) < 10 && SlotOf(s) < 10
    ensures Label(ZoneOf(s), AisleOf(s), SlotOf(s)) == s
  {
    var r := Label(ZoneOf(s), AisleOf(s), SlotOf(s));
    assert r[0] == s[0] && r[2] == s[2] && r[4] == s[4];
  }
}
