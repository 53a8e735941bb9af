/** Pages and cursors in plain terms: what a caller of the listing sees. */
module Listings {
  import opened Wrappers
  import opened Text
  import opened Jobs
  import opened Pagination
  import Base64

  // ---------- the order ----------

  /** The two agree up to position i, where the first ends or has the smaller character. */
  predicate DifferAt(a: string, b: string, i: nat) {
    i <= |a| && i < |b| && a[..i] == b[..i] && (i == |a| || a[i] < b[i])
  }

  /** Ids are ordered as words in a dictionary. */
  lemma {:induction false} LexMeaning(a: string, b: string)
    ensures LexLess(a, b) <==> exists i: nat :: DifferAt(a, b, i)
  {
    if a == "" {
      assert b != "" ==> DifferAt(a, b, 0);
    } else if b != "" {
      LexMeaning(a[1..], b[1..]);
      if LexLess(a, b) {
        if a[0] < b[0] {
          assert DifferAt(a, b, 0);
        } else {
          var i: nat :| DifferAt(a[1..], b[1..], i);
          assert a[..i + 1] == [a[0]] + a[1..][..i] && b[..i + 1] == [b[0]] + b[1..][..i];
          assert DifferAt(a, b, i + 1);
        }
      }
      if i: nat :| DifferAt(a, b, i) && i > 0 {
        assert a[0] == a[..i][0] == b[..i][0] == b[0];
        assert a[1..][..i - 1] == a[..i][1..] && b[1..][..i - 1] == b[..i][1..];
        assert DifferAt(a[1..], b[1..], i - 1);
      }
    }
  }

  // ---------- a page ----------

  /** The caller asked for this row: its tenant and state, where given. */
  predicate Wanted(f: Filter, r: Row) {
    (f.tenant == "" || r.tenant == f.tenant) && (f.state.None? || r.state == f.state.value)
  }

  /** x is older than the place, or as old with the smaller id. */
  ghost predicate OlderThan(t: Table, x: JobId, p: Place)
    requires x in t
  {
    t[x].createdAt < p.createdAt || (t[x].createdAt == p.createdAt && exists i: nat :: DifferAt(x, p.id, i))
  }

  ghost predicate Older(t: Table, x: JobId, y: JobId)
    requires x in t && y in t
  {
    OlderThan(t, x, Place(t[y].createdAt, y))
  }

  /** A first page holds wanted rows only, newest first, and no wanted row that it leaves
      out is newer than its last. */
  lemma FirstPage(t: Table, f: Filter, page: seq<JobId>, more: bool)
    requires IsPage(t, f, None, page, more)
    ensures forall id :: id in page ==> id in t && Wanted(f, t[id])
    ensures forall i, j :: 0 <= i < j < |page| ==> page[i] in t && page[j] in t && Older(t, page[j], page[i])
    ensures forall id :: id in t && Wanted(f, t[id]) && id !in page ==>
      more && page != [] && page[|page| - 1] in t && Older(t, id, page[|page| - 1])
  {
    hide LexLess, DifferAt;
    forall x, y ensures LexLess(x, y) <==> exists i: nat :: DifferAt(x, y, i) { LexMeaning(x, y); }
    forall id ensures Eligible(t, f, None, id) <==> id in t && Wanted(f, t[id]) {}
  }

  /** A page after a cursor holds only wanted rows older than the cursor's place, whether or
      not its row is still there, newest first, and leaves out none newer than its last. */
  lemma NextPage(t: Table, f: Filter, after: Place, page: seq<JobId>, more: bool)
    requires IsPage(t, f, Some(after), page, more)
    ensures forall id :: id in page ==> id in t && Wanted(f, t[id]) && OlderThan(t, id, after)
    ensures forall i, j :: 0 <= i < j < |page| ==> page[i] in t && page[j] in t && Older(t, page[j], page[i])
    ensures forall id :: id in t && Wanted(f, t[id]) && OlderThan(t, id, after) && id !in page ==>
      more && page != [] && page[|page| - 1] in t && Older(t, id, page[|page| - 1])
  {
    hide LexLess, DifferAt;
    forall x, y ensures LexLess(x, y) <==> exists i: nat :: DifferAt(x, y, i) { LexMeaning(x, y); }
    forall id ensures Eligible(t, f, Some(after), id) <==> id in t && Wanted(f, t[id]) && OlderThan(t, id, after) {}
  }

  // ---------- the cursor ----------

  /** A cursor is the base64url text of the microseconds, a bar, and the id. */
  lemma CursorText(p: Place)
    requires Storable(p)
    ensures Base64.Decode(EncodeCursor(p)).Some?
    ensures FromBytes(Base64.Decode(EncodeCursor(p)).value) == FormatInt(p.createdAt / 1_000) + "|" + p.id
  {
    hide Base64.Encode, Base64.Decode, FormatInt;
    FormatIsBytes(UnixMicro(p.createdAt));
    Base64.RoundTrip(ToBytes(FormatInt(UnixMicro(p.createdAt)) + "|" + p.id));
  }

  /** Numbers are written in decimal. */
  lemma DecimalTexts()
    ensures FormatInt(0) == "0" && FormatInt(7) == "7" && FormatInt(120) == "120" && FormatInt(-42) == "-42"
  {
    assert FormatNat(12) == FormatNat(1) + "2" && FormatNat(120) == FormatNat(12) + "0";
    assert FormatNat(42) == FormatNat(4) + "2";
  }

  /** The test vectors of section 10 of RFC 4648, without padding, and the two characters
      of section 5. */
  lemma Vectors()
    ensures Base64.Encode([]) == "" && Base64.Encode([102]) == "Zg" && Base64.Encode([102, 111]) == "Zm8"
    ensures Base64.Encode([102, 111, 111]) == "Zm9v" && Base64.Encode([251, 255]) == "-_8"
  {
    Two(25, 32);
    Three(25, 38, 60);
    Three(62, 63, 60);
    Four(25, 38, 61, 47, []);
  }

  lemma LongerVector()
    ensures Base64.Encode([102, 111, 111, 98]) == "Zm9vYg"
  {
    var foob := [102, 111, 111, 98];
    assert foob[3..] == [98];
    assert Base64.Sextets(foob) == [25, 38, 61, 47] + [24, 32];
    Two(24, 32);
    Four(25, 38, 61, 47, [24, 32]);
  }

  lemma Two(u: Base64.Sextet, v: Base64.Sextet)
    ensures Base64.Letters([u, v]) == [Base64.Letter(u), Base64.Letter(v)]
  {
    assert [u, v][1..] == [v] && [v][1..] == [];
  }

  lemma Three(u: Base64.Sextet, v: Base64.Sextet, w: Base64.Sextet)
    ensures Base64.Letters([u, v, w]) == [Base64.Letter(u), Base64.Letter(v), Base64.Letter(w)]
  {
    assert [u, v, w][1..] == [v, w];
    Two(v, w);
  }

  lemma Front(u: Base64.Sextet, rest: seq<Base64.Sextet>)
    ensures Base64.Letters([u] + rest) == [Base64.Letter(u)] + Base64.Letters(rest)
  {
    assert ([u] + rest)[1..] == rest;
  }

  lemma Four(u: Base64.Sextet, v: Base64.Sextet, w: Base64.Sextet, x: Base64.Sextet, rest: seq<Base64.Sextet>)
    ensures Base64.Letters([u, v, w, x] + rest)
         == [Base64.Letter(u), Base64.Letter(v), Base64.Letter(w), Base64.Letter(x)] + Base64.Letters(rest)
  {
    Front(u, [v, w, x] + rest);
    Front(v, [w, x] + rest);
    Front(w, [x] + rest);
    Front(x, rest);
    assert [u, v, w, x] + rest == [u] + ([v, w, x] + rest);
    assert [v, w, x] + rest == [v] + ([w, x] + rest);
    assert [w, x] + rest == [w] + ([x] + rest);
  }
}
