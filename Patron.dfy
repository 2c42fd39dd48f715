/** The immutable patron record (Patron.java). */
module PatronRecord {

  /**
   * A patron: its id is kept as text so that leading zeros survive, and the
   * fine is the Java `double`, modelled as a `real`. All four fields are final
   * in the source, so a datatype value is an exact fit; the datatype's
   * constructor performs no validation, just as the Java constructor does.
   */
  datatype Patron = Patron(id: string, name: string, address: string, overdueFine: real)

  /**
   * The constructor keeps its arguments verbatim and the getters give them back,
   * whatever the values; an id with leading zeros comes back unchanged.
   */
  lemma ConstructorStoresVerbatim(id: string, name: string, address: string, fine: real)
    ensures var p := Patron(id, name, address, fine);
      p.id == id && p.name == name && p.address == address && p.overdueFine == fine
    ensures Patron("0012345", name, address, fine).id == "0012345"
  {
  }

  /**
   * The display line of a patron. `formatFine` stands for Java's `%.2f`
   * rendering of the fine (rounding and locale are the host's business).
   */
  function ToFormattedString(p: Patron, formatFine: real -> string): (r: string)
    ensures |r| == 4 + |p.id| + 9 + |p.name| + 12 + |p.address| + 10 + |formatFine(p.overdueFine)|
    ensures r[..4] == "ID: "
    ensures r[4..4 + |p.id|] == p.id
    ensures r[4 + |p.id|..13 + |p.id|] == " | Name: "
    ensures r[13 + |p.id|..13 + |p.id| + |p.name|] == p.name
    ensures r[13 + |p.id| + |p.name|..25 + |p.id| + |p.name|] == " | Address: "
    ensures r[25 + |p.id| + |p.name|..25 + |p.id| + |p.name| + |p.address|] == p.address
    ensures r[|r| - |formatFine(p.overdueFine)| - 10..] == " | Fine: $" + formatFine(p.overdueFine)
  {
    "ID: " + p.id + " | Name: " + p.name + " | Address: " + p.address + " | Fine: $" + formatFine(p.overdueFine)
  }

  /**
   * The display line tells patrons apart by id: two patrons whose ids have the
   * same length but differ (two valid seven-digit ids, say) never share a line.
   */
  lemma FormattedStringShowsId(p: Patron, q: Patron, formatFine: real -> string)
    requires |p.id| == |q.id| && p.id != q.id
    ensures ToFormattedString(p, formatFine) != ToFormattedString(q, formatFine)
  {
    var rp := ToFormattedString(p, formatFine);
    var rq := ToFormattedString(q, formatFine);
    assert rp[4..4 + |p.id|] != rq[4..4 + |q.id|];
  }
}
