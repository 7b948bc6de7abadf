/** The browser script's two battle-tag conversions (static/js/scripts.js): the
    account name used in character URLs and the battle tag recovered from it. JavaScript's
    `replace` with a string pattern replaces only the first occurrence. */
module BattleTags {

  import opened Wrappers
  import opened Text

  /** `viewCharacterDetails`: `battleTag.replace('#', '-')`. */
  function AccountOf(battleTag: string): string {
    ReplaceFirst(battleTag, '#', '-')
  }

  /** `fetchRiftDetails`: `account.replace('-', '#')`, "reverse the replacement". */
  function BattleTagOf(account: string): string {
    ReplaceFirst(account, '-', '#')
  }

  /** The account name has a `-` in place of the tag's first `#` and is otherwise the
      tag, so it still holds a `#` exactly when the tag has a second one. */
  lemma AccountOfReplacesTheHash(battleTag: string, k: nat)
    requires k < |battleTag| && battleTag[k] == '#'
    requires forall i :: 0 <= i < k ==> battleTag[i] != '#'
    ensures AccountOf(battleTag) == battleTag[k := '-']
    ensures '#' in AccountOf(battleTag) <==> exists i :: k < i < |battleTag| && battleTag[i] == '#'
  {
    FirstIndexAt(battleTag, '#', k);
    var a := battleTag[k := '-'];
    if exists i :: k < i < |battleTag| && battleTag[i] == '#' {
      var i :| k < i < |battleTag| && battleTag[i] == '#';
      assert a[i] == '#';
    }
  }

  /** With two `#`, the browser's account name keeps the second one while the backend's
      URL name (app.py replaces every `#`) does not. */
  lemma TwoHashesDifferFromBackend()
    ensures AccountOf("a#b#1") == "a-b#1"
    ensures ReplaceAll("a#b#1", '#', '-') == "a-b-1"
  {
    FirstIndexAt("a#b#1", '#', 1);
    assert "a#b#1"[1 := '-'] == "a-b#1";
    var all := ReplaceAll("a#b#1", '#', '-');
    assert all[1] == '-' && all[3] == '-';
    assert all == "a-b-1";
  }

  /** The reverse conversion does reverse the first one for every tag without a `-`. */
  lemma RoundTripWithoutDash(battleTag: string)
    requires '-' !in battleTag
    ensures BattleTagOf(AccountOf(battleTag)) == battleTag
  {
    match FirstIndexOf(battleTag, '#')
    case None =>
    case Some(k) =>
      var a := battleTag[k := '-'];
      forall i | 0 <= i < k ensures a[i] != '-' {
        assert a[i] == battleTag[i];
        assert battleTag[i] in battleTag;
      }
      FirstIndexAt(a, '-', k);
      assert a[k := '#'] == battleTag;
  }

  /** A tag with a `-` before its `#` does not survive the round trip. */
  lemma DashBreaksRoundTrip()
    ensures AccountOf("a-b#1") == "a-b-1"
    ensures BattleTagOf(AccountOf("a-b#1")) == "a#b-1"
  {
    var tag := "a-b#1";
    FirstIndexAt(tag, '#', 3);
    assert tag[3 := '-'] == "a-b-1";
    FirstIndexAt("a-b-1", '-', 1);
    assert "a-b-1"[1 := '#'] == "a#b-1";
  }

  /** For a tag with at most one `#`, the browser's account name is the name the
      backend puts in its URLs (which replaces every `#`). */
  lemma AgreesWithBackendForOneHash(battleTag: string)
    requires forall i, j :: 0 <= i < j < |battleTag| && battleTag[i] == '#' ==> battleTag[j] != '#'
    ensures AccountOf(battleTag) == ReplaceAll(battleTag, '#', '-')
  {
    var all := ReplaceAll(battleTag, '#', '-');
    match FirstIndexOf(battleTag, '#')
    case None =>
      forall i | 0 <= i < |battleTag| ensures all[i] == battleTag[i] {
        assert battleTag[i] in battleTag;
      }
    case Some(k) =>
      var one := battleTag[k := '-'];
      assert AccountOf(battleTag) == one;
      forall i | 0 <= i < |battleTag| ensures all[i] == one[i] {
        if i != k {
          assert battleTag[i] != '#' by {
            if i > k {
              assert battleTag[k] == '#';
            }
          }
        }
      }
      assert all == one;
  }
}
