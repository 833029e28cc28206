// The mason role's start-up callback (backend/roles/mason.py): at the start
// of a game every mason privately learns who the other masons are.

module Masons {
  import opened Types
  import Text
  import Seqs

  /** Every player's user is on record. */
  predicate UsersKnown(ps: seq<Player>, users: map<nat, User>)
  {
    forall i :: 0 <= i < |ps| ==> ps[i].userId in users
  }

  /** The display names of `ps`, in order. */
  function NamesOf(ps: seq<Player>, users: map<nat, User>): (names: seq<string>)
    requires UsersKnown(ps, users)
    ensures |names| == |ps|
    ensures forall i :: 0 <= i < |ps| ==> names[i] == users[ps[i].userId].name
  {
    seq(|ps|, i requires 0 <= i < |ps| => users[ps[i].userId].name)
  }

  /** The masons other than `me`: those whose player id differs. */
  function OtherMasons(masons: seq<Player>, me: Player): seq<Player>
  {
    Seqs.Filter((p: Player) => p.id != me.id, masons)
  }

  /** The one message `me` receives. */
  function Announcement(masons: seq<Player>, users: map<nat, User>, me: Player): Message
    requires UsersKnown(masons, users)
  {
    var others := OtherMasons(masons, me);
    assert UsersKnown(others, users) by {
      forall i | 0 <= i < |others| ensures others[i].userId in users {
        assert others[i] in masons;
      }
    }
    Message("Your fellow masons are " + Text.GrammaticalJoin(NamesOf(others, users)), true, [me.id], false)
  }

  /**
   * `announce_masons`: one strong message per mason, in the order of the
   * mason list, each readable by that mason only.
   */
  function AnnounceMasons(masons: seq<Player>, users: map<nat, User>): (ms: seq<Message>)
    requires UsersKnown(masons, users)
    ensures |ms| == |masons|
    ensures forall i :: 0 <= i < |masons| ==>
      ms[i].isStrong && ms[i].visibleTo == [masons[i].id] && !ms[i].expired
  {
    seq(|masons|, i requires 0 <= i < |masons| => Announcement(masons, users, masons[i]))
  }

  /**
   * Mason `i`'s message names every mason with a different player id, and
   * the list it is built from never holds the recipient.
   */
  lemma AnnouncementNamesOthers(masons: seq<Player>, users: map<nat, User>, i: nat, j: nat)
    requires UsersKnown(masons, users)
    requires i < |masons| && j < |masons| && masons[j].id != masons[i].id
    ensures Text.Contains(AnnounceMasons(masons, users)[i].text, users[masons[j].userId].name)
    ensures masons[i] !in OtherMasons(masons, masons[i])
  {
    var others := OtherMasons(masons, masons[i]);
    assert masons[j] in others;
    var k :| 0 <= k < |others| && others[k] == masons[j];
    assert UsersKnown(others, users) by {
      forall m | 0 <= m < |others| ensures others[m].userId in users {
        assert others[m] in masons;
      }
    }
    var names := NamesOf(others, users);
    Text.GrammaticalJoinNamesAll(names, k);
    Text.ContainsRight("Your fellow masons are ", Text.GrammaticalJoin(names), names[k]);
  }
}
