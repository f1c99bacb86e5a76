/** The User-Agent test that decides whether a new session is adopted. */
module UserAgent {
  import opened Text

  const VENDOR := "plivo"
  const CAPITALS := "PLIVO"

  /** `agent` spells the vendor name at position `i`, each letter in either case. */
  predicate SpellsVendorAt(agent: string, i: int) {
    && 0 <= i <= |agent| - |VENDOR|
    && forall k :: 0 <= k < |VENDOR| ==> agent[i + k] == VENDOR[k] || agent[i + k] == CAPITALS[k]
  }

  /** The header is present and names the vendor somewhere, ignoring case. */
  predicate NamesVendor(agent: Option<string>) {
    agent.Some? && exists i :: 0 <= i < |agent.value| && SpellsVendorAt(agent.value, i)
  }

  lemma VendorLetter(c: char, k: nat)
    requires k < |VENDOR|
    ensures ToLower(c) == VENDOR[k] <==> c == VENDOR[k] || c == CAPITALS[k]
  {
  }

  lemma LoweredOccurrence(agent: string, i: int)
    ensures OccursAt(Lowered(agent), VENDOR, i) <==> SpellsVendorAt(agent, i)
  {
    if 0 <= i <= |agent| - |VENDOR| {
      var piece := Lowered(agent)[i..i + |VENDOR|];
      forall k | 0 <= k < |VENDOR|
        ensures piece[k] == VENDOR[k] <==> agent[i + k] == VENDOR[k] || agent[i + k] == CAPITALS[k]
      {
        VendorLetter(agent[i + k], k);
      }
      assert piece == VENDOR <==> forall k :: 0 <= k < |VENDOR| ==> piece[k] == VENDOR[k];
    }
  }

  /** Whatever surrounds it, the name in any mix of cases is accepted. */
  lemma AnyCaseIsAccepted(before: string, name: string, after: string)
    requires |name| == |VENDOR| && forall k :: 0 <= k < |VENDOR| ==> name[k] == VENDOR[k] || name[k] == CAPITALS[k]
    ensures NamesVendor(Some(before + name + after))
  {
    var agent := before + name + after;
    assert forall k :: 0 <= k < |VENDOR| ==> agent[|before| + k] == name[k];
    assert SpellsVendorAt(agent, |before|);
  }

  /** Lower the header in place, then search it: this finds the vendor in any case. */
  method IsValid(agent: Option<string>) returns (valid: bool)
    ensures valid == NamesVendor(agent)
  {
    valid := false;
    if agent.Some? {
      var text := agent.value;
      for i := 0 to |text|
        invariant |text| == |agent.value|
        invariant forall k :: 0 <= k < |text| ==> text[k] == if k < i then ToLower(agent.value[k]) else agent.value[k]
      {
        text := text[i := ToLower(text[i])];
      }
      assert text == Lowered(agent.value);
      var at := Find(text, VENDOR);
      valid := at != -1;
      forall i {
        LoweredOccurrence(agent.value, i);
      }
    }
  }
}
