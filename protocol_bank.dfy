/**
 * The protocol bank of `src/data/protocols/index.ts` and its lookups. The
 * protocol records themselves (`src/data/protocols/aave.ts`,
 * `src/types/protocol.ts`) are not part of this model, so the bank is a
 * parameter and `Protocol` holds only the fields the handlers read.
 */
module ProtocolBank {
  import opened Wrappers
  import Seqs

  /** A DeFi protocol card: `title` may be missing or empty, `secretWord` is the quiz reward. */
  datatype Protocol = Protocol(id: string, name: string, title: Option<string>, category: string, secretWord: string)

  /** `protocol.title || protocol.name` */
  function DisplayName(p: Protocol): (r: string)
    ensures p.title.Some? && p.title.value != "" ==> r == p.title.value
    ensures (p.title.None? || p.title.value == "") ==> r == p.name
  {
    if p.title.Some? && p.title.value != "" then p.title.value else p.name
  }

  /** `getProtocolById`: the first protocol with that id, or None when the id is not in the bank. */
  function ById(bank: seq<Protocol>, id: string): (r: Option<Protocol>)
    ensures r.Some? ==> exists i :: 0 <= i < |bank| && bank[i] == r.value && r.value.id == id
                          && forall j :: 0 <= j < i ==> bank[j].id != id
    ensures r.None? <==> forall i :: 0 <= i < |bank| ==> bank[i].id != id
  {
    Seqs.Find(bank, (p: Protocol) => p.id == id)
  }

  /** `getProtocolsByCategory`: exactly the protocols of that category, in bank order. */
  function ByCategory(bank: seq<Protocol>, category: string): (r: seq<Protocol>)
    ensures forall p :: p in r <==> p in bank && p.category == category
  {
    var f := (p: Protocol) => p.category == category;
    Seqs.FilterMembership(bank, f);
    Seqs.Filter(bank, f)
  }

  /** The category filter is a subsequence of the bank that keeps each match's multiplicity. */
  lemma ByCategoryExact(bank: seq<Protocol>, category: string)
    ensures Seqs.IsSubsequence(ByCategory(bank, category), bank)
    ensures forall p :: multiset(ByCategory(bank, category))[p]
                          == if p.category == category then multiset(bank)[p] else 0
  {
    var f := (p: Protocol) => p.category == category;
    Seqs.FilterIsSubsequence(bank, f);
    forall p ensures multiset(ByCategory(bank, category))[p] == if f(p) then multiset(bank)[p] else 0 {
      Seqs.FilterCounts(bank, f, p);
    }
  }

  /** The lookup finds something exactly when some protocol of the bank carries the id. */
  lemma ByIdFoundIffPresent(bank: seq<Protocol>, id: string)
    ensures ById(bank, id).Some? <==> id in (set p | p in bank :: p.id)
  {
    if ById(bank, id).None? {
      assert forall p :: p in bank ==> p.id != id by {
        forall p | p in bank ensures p.id != id {
          var i :| 0 <= i < |bank| && bank[i] == p;
        }
      }
    }
  }
}
