/**
 * The vCard manager page (`VCardManagerModel`): the caller's card list, the
 * create-or-edit form and the delete button.
 *
 * A card is always stored under the caller's id, whatever the form carried.
 * New cards are limited by the vCard quota of the caller's claims, counting
 * only cards that are not deleted; an edit or a delete reaches only a card
 * the caller owns, deleted or not.
 */
module VCardManager {
  import opened Common
  import opened Entities
  import opened Store
  import opened Http
  import opened UrlLimiter

  /** The caller's cards that are not deleted, in table order; none without a user id. */
  function UserVCards(cards: seq<VCard>, userId: Option<string>): (list: seq<VCard>)
    ensures forall i | 0 <= i < |list| :: list[i] in cards && Some(list[i].userId) == userId && !list[i].isDeleted
    ensures forall i | 0 <= i < |cards| && Some(cards[i].userId) == userId && !cards[i].isDeleted :: cards[i] in list
  {
    Filter(cards, (v: VCard) => Some(v.userId) == userId && !v.isDeleted)
  }

  /** `FirstOrDefault(v => v.Id == id && v.UserId == userId)`: deleted cards are found too. */
  function OwnedPosition(cards: seq<VCard>, userId: Option<string>, id: int): (pos: Option<nat>)
    ensures pos.Some? ==> pos.value < |cards| && cards[pos.value].id == id && Some(cards[pos.value].userId) == userId
    ensures pos.None? <==> forall i | 0 <= i < |cards| :: cards[i].id != id || Some(cards[i].userId) != userId
  {
    FirstWhere(cards, (v: VCard) => v.id == id && Some(v.userId) == userId)
  }

  /** `OnGetAsync(id)`: the list, and the card put in the form (the caller's card with that id, if any). */
  function CardInForm(cards: seq<VCard>, userId: Option<string>, id: Option<int>): (card: Option<VCard>)
    ensures card.Some? ==> id.Some? && card.value in cards && card.value.id == id.value && Some(card.value.userId) == userId
    ensures card.None? <==> id.None? || OwnedPosition(cards, userId, id.value).None?
  {
    if id.None? then None
    else match OwnedPosition(cards, userId, id.value)
      case None => None
      case Some(i) => Some(cards[i])
  }

  /** The quota count: the caller's cards that are not deleted. */
  function LiveVCardCount(cards: seq<VCard>, userId: string): nat
  {
    CountWhere(cards, (v: VCard) => v.userId == userId && !v.isDeleted)
  }

  /** The bound form: every scalar of the card as posted (an absent field keeps its default). */
  datatype VCardForm = VCardForm(id: int, contact: VCardContact, createdAt: nat, isDeleted: bool, deletedAt: Option<nat>)

  /** The form as a row of the caller's: `VCard.UserId = userId` overwrites whatever was posted. */
  function PostedRow(form: VCardForm, userId: string, id: nat): (row: VCard)
    ensures row.id == id && row.userId == userId && row.contact == form.contact
    ensures row.createdAt == form.createdAt && row.isDeleted == form.isDeleted && row.deletedAt == form.deletedAt
  {
    VCard(id, userId, form.contact, form.createdAt, form.isDeleted, form.deletedAt)
  }

  datatype PostOutcome =
    | IdentificationFailed   // "User identification failed."
    | InvalidForm            // validation errors shown on the page
    | LimitReached(limit: int)  // "You have reached your limit of … vCards."
    | CardNotFound           // 404
    | Saved                  // redirect to /VCardManager

  /** What `OnPostAsync` decides, in source order. */
  function PostVerdict(cards: seq<VCard>, principal: Principal, modelValid: bool, form: VCardForm): (v: PostOutcome)
    ensures v == IdentificationFailed <==> principal.userId.None?
    ensures v == InvalidForm <==> principal.userId.Some? && !modelValid
    // a new card is refused exactly when the caller's live cards already fill the tier's quota
    ensures v.LimitReached? <==>
      principal.userId.Some? && modelValid && form.id == 0 &&
      LiveVCardCount(cards, principal.userId.value) >= GetVCardLimitForUser(principal.roles).value
    ensures v.LimitReached? ==> v.limit == GetVCardLimitForUser(principal.roles).value
    // an edit needs a card with that id owned by the caller
    ensures v == CardNotFound <==>
      principal.userId.Some? && modelValid && form.id != 0 &&
      forall i | 0 <= i < |cards| :: cards[i].id != form.id || cards[i].userId != principal.userId.value
    ensures v == Saved ==>
      && principal.userId.Some? && modelValid
      && (if form.id == 0 then LiveVCardCount(cards, principal.userId.value) < GetVCardLimitForUser(principal.roles).value
          else exists i | 0 <= i < |cards| :: cards[i].id == form.id && cards[i].userId == principal.userId.value)
  {
    if principal.userId.None? then IdentificationFailed
    else if !modelValid then InvalidForm
    else if form.id == 0 then
      var limit := GetVCardLimitForUser(principal.roles).value;
      if LiveVCardCount(cards, principal.userId.value) >= limit then LimitReached(limit) else Saved
    else if OwnedPosition(cards, principal.userId, form.id).None? then CardNotFound
    else Saved
  }

  /** `OnPostAsync`: adds a new card (id 0) within the quota, or overwrites the caller's card with the posted values. */
  method OnPost(db: Db, principal: Principal, modelValid: bool, form: VCardForm) returns (outcome: PostOutcome)
    requires db.Valid()
    modifies db`vCards, db`nextVCardId
    ensures db.Valid()
    ensures outcome == PostVerdict(old(db.vCards), principal, modelValid, form)
    ensures outcome != Saved ==> db.vCards == old(db.vCards) && db.nextVCardId == old(db.nextVCardId)
    ensures outcome == Saved && form.id == 0 ==>
      db.vCards == old(db.vCards) + [PostedRow(form, principal.userId.value, old(db.nextVCardId))]
    ensures outcome == Saved && form.id != 0 ==>
      && var pos := OwnedPosition(old(db.vCards), principal.userId, form.id).value;
      && db.vCards == old(db.vCards)[pos := PostedRow(form, principal.userId.value, old(db.vCards)[pos].id)]
      && db.nextVCardId == old(db.nextVCardId)
  {
    outcome := PostVerdict(db.vCards, principal, modelValid, form);
    if outcome != Saved {
      return;
    }
    var userId := principal.userId.value;
    if form.id == 0 {
      var _ := db.AddVCard(PostedRow(form, userId, 0));
    } else {
      var pos := OwnedPosition(db.vCards, principal.userId, form.id).value;
      db.SetVCard(pos, PostedRow(form, userId, db.vCards[pos].id));
    }
  }

  lemma {:induction false} LiveCountAppend(cards: seq<VCard>, userId: string, v: VCard)
    ensures LiveVCardCount(cards + [v], userId) ==
      LiveVCardCount(cards, userId) + (if v.userId == userId && !v.isDeleted then 1 else 0)
  {
    FilterAppend(cards, v, (v: VCard) => v.userId == userId && !v.isDeleted);
  }

  /**
   * The quota holds across a create: a caller within its limit stays within
   * it, since a card is added only while the count is below the limit.
   */
  lemma NewCardKeepsQuota(cards: seq<VCard>, principal: Principal, modelValid: bool, form: VCardForm, newId: nat)
    requires form.id == 0 && PostVerdict(cards, principal, modelValid, form) == Saved
    ensures LiveVCardCount(cards + [PostedRow(form, principal.userId.value, newId)], principal.userId.value)
            <= GetVCardLimitForUser(principal.roles).value
  {
    LiveCountAppend(cards, principal.userId.value, PostedRow(form, principal.userId.value, newId));
  }

  /** The table after the bulk update: the caller's card with that id, deleted or not, is marked deleted now. */
  function AfterVCardDelete(cards: seq<VCard>, userId: Option<string>, id: int, now: nat): (after: seq<VCard>)
    ensures |after| == |cards|
    ensures forall i | 0 <= i < |cards| ::
      after[i] == (if cards[i].id == id && Some(cards[i].userId) == userId
                   then cards[i].(isDeleted := true, deletedAt := Some(now)) else cards[i])
    // none of the caller's cards with that id is live afterwards, and no other owner's card or id is touched
    ensures forall i | 0 <= i < |after| :: after[i].id == id && Some(after[i].userId) == userId ==> after[i].isDeleted
    ensures forall i | 0 <= i < |cards| :: cards[i].id != id || Some(cards[i].userId) != userId ==> after[i] == cards[i]
    ensures forall i | 0 <= i < |cards| :: after[i].id == cards[i].id && after[i].userId == cards[i].userId && after[i].contact == cards[i].contact
  {
    seq(|cards|, i requires 0 <= i < |cards| =>
      if cards[i].id == id && Some(cards[i].userId) == userId then cards[i].(isDeleted := true, deletedAt := Some(now))
      else cards[i])
  }

  /** `OnPostDeleteAsync`: `ExecuteUpdateAsync` over the rows matching both the id and the caller. */
  method OnPostDelete(db: Db, principal: Principal, id: int, now: nat)
    requires db.Valid()
    modifies db`vCards
    ensures db.Valid()
    ensures db.vCards == AfterVCardDelete(old(db.vCards), principal.userId, id, now)
  {
    ghost var before := db.vCards;
    for i := 0 to |db.vCards|
      invariant db.Valid()
      invariant |db.vCards| == |before|
      invariant forall k | 0 <= k < i :: db.vCards[k] == AfterVCardDelete(before, principal.userId, id, now)[k]
      invariant forall k | i <= k < |before| :: db.vCards[k] == before[k]
    {
      var v := db.vCards[i];
      if v.id == id && Some(v.userId) == principal.userId {
        db.SetVCard(i, v.(isDeleted := true, deletedAt := Some(now)));
      }
    }
  }

  /**
   * A delete drops that card from the caller's list and keeps every other
   * listed card; and since the quota counts only live cards, deleting a live
   * card the caller owns (ids being distinct) gives one card of quota back.
   */
  lemma DeleteLeavesTheRestListed(cards: seq<VCard>, userId: string, id: int, now: nat)
    ensures var after := AfterVCardDelete(cards, Some(userId), id, now);
      && (forall i | 0 <= i < |UserVCards(after, Some(userId))| :: UserVCards(after, Some(userId))[i].id != id)
      && (forall i | 0 <= i < |UserVCards(cards, Some(userId))| && UserVCards(cards, Some(userId))[i].id != id ::
            UserVCards(cards, Some(userId))[i] in UserVCards(after, Some(userId)))
  {
    var after := AfterVCardDelete(cards, Some(userId), id, now);
    var listed := UserVCards(cards, Some(userId));
    forall i | 0 <= i < |UserVCards(after, Some(userId))|
      ensures UserVCards(after, Some(userId))[i].id != id
    {
      var v := UserVCards(after, Some(userId))[i];
      var k :| 0 <= k < |after| && after[k] == v;
    }
    forall i | 0 <= i < |listed| && listed[i].id != id
      ensures listed[i] in UserVCards(after, Some(userId))
    {
      var k :| 0 <= k < |cards| && cards[k] == listed[i];
      assert after[k] == cards[k];
    }
  }

  lemma {:induction false} DeleteFreesQuota(cards: seq<VCard>, userId: string, id: int, now: nat, pos: nat)
    requires forall i, j | 0 <= i < j < |cards| :: cards[i].id != cards[j].id
    requires pos < |cards| && cards[pos].id == id && cards[pos].userId == userId && !cards[pos].isDeleted
    ensures LiveVCardCount(AfterVCardDelete(cards, Some(userId), id, now), userId) + 1 == LiveVCardCount(cards, userId)
  {
    var after := AfterVCardDelete(cards, Some(userId), id, now);
    assert after[1..] == AfterVCardDelete(cards[1..], Some(userId), id, now);
    if pos == 0 {
      forall k | 0 <= k < |cards[1..]| ensures cards[1..][k].id != id {
        assert cards[1..][k] == cards[k + 1];
      }
      UnmatchedUnchanged(cards[1..], Some(userId), id, now);
    } else {
      assert cards[0].id != id;
      forall i, j | 0 <= i < j < |cards[1..]| ensures cards[1..][i].id != cards[1..][j].id {
        assert cards[1..][i] == cards[i + 1] && cards[1..][j] == cards[j + 1];
      }
      DeleteFreesQuota(cards[1..], userId, id, now, pos - 1);
    }
  }

  lemma UnmatchedUnchanged(cards: seq<VCard>, userId: Option<string>, id: int, now: nat)
    requires forall k | 0 <= k < |cards| :: cards[k].id != id
    ensures AfterVCardDelete(cards, userId, id, now) == cards
  {
  }
}
