/** Cards and their owners: the card store and the service over it. */
module UserServices {
  import opened Common

  /** A stored card: a generated id and the owning user. Neither changes
      after creation. */
  datatype Card = Card(id: string, userId: string)

  /** The user service over its card store, kept as a map from card id to
      card (the repository's primary key). */
  class UserService {
    var cards: map<string, Card>

    /** Each card is stored under its own id, and no user has two cards. */
    ghost predicate Valid()
      reads this
    {
      && (forall id :: id in cards ==> cards[id].id == id)
      && (forall a, b :: a in cards && b in cards && cards[a].userId == cards[b].userId ==> a == b)
    }

    constructor ()
      ensures cards == map[] && Valid()
    {
      cards := map[];
    }

    /** `existsCardByUserId`. */
    predicate HasCard(userId: string)
      reads this
    {
      exists id :: id in cards && cards[id].userId == userId
    }

    /** `createCardForUser`: refuse a second card for a user; otherwise store
      a new card under `newId` (the generated UUID, given here as an
      argument) and return its id. */
    method CreateCardForUser(userId: string, newId: string) returns (r: Result<string>)
      requires Valid()
      modifies this
      ensures Valid()
      ensures old(HasCard(userId)) ==> r == Failure(DuplicateCard) && cards == old(cards)
      ensures !old(HasCard(userId)) ==> r == Success(newId) && cards == old(cards)[newId := Card(newId, userId)]
      ensures !old(HasCard(userId)) ==> CardIdForUser(userId) == Success(newId)
      ensures !old(HasCard(userId)) && newId !in old(cards) ==> UserIds() == old(UserIds()) + {userId}
    {
      if HasCard(userId) {
        return Failure(DuplicateCard);
      }
      ghost var before := cards;
      cards := cards[newId := Card(newId, userId)];
      r := Success(newId);
      assert HasCard(userId) by { assert cards[newId].userId == userId; }
      if newId !in before {
        assert cards.Keys == before.Keys + {newId};
        forall u ensures u in UserIds() <==> u in old(UserIds()) + {userId} {
          if u in old(UserIds()) {
            var id :| id in before && before[id].userId == u;
            assert cards[id] == before[id];
          }
        }
      }
    }

    /** `getUserIds`: the owners of the stored cards. */
    function UserIds(): (users: set<string>)
      reads this
      ensures forall u :: u in users <==> HasCard(u)
    {
      set id | id in cards :: cards[id].userId
    }

    /** `getCardIdForUser`: the id of the user's card, or a failure when the
      user has none. */
    function CardIdForUser(userId: string): (r: Result<string>)
      requires Valid()
      reads this
      ensures r.Failure? <==> !HasCard(userId)
      ensures r.Failure? ==> r.error == NoCardForUser
      ensures r.Success? ==> r.value in cards && cards[r.value].userId == userId
    {
      if HasCard(userId) then
        var id :| id in cards && cards[id].userId == userId;
        Success(id)
      else Failure(NoCardForUser)
    }

    /** `getCard`: the stored card with that id, or a failure. */
    function GetCard(cardId: string): (r: Result<Card>)
      requires Valid()
      reads this
      ensures r.Failure? <==> cardId !in cards
      ensures r.Failure? ==> r.error == CardDoesNotExist
      ensures r.Success? ==> r.value.id == cardId && r.value == cards[cardId]
    {
      if cardId in cards then Success(cards[cardId]) else Failure(CardDoesNotExist)
    }
  }

  /** The user service's test fixture and cases in one run: one user is given
      a card; a user without a card has no card id; the card is found by its
      id and for its owner, an unknown id is not found; a second card for the
      same user is refused; a card for the other user is created, after which
      both users are listed. Card ids are generated, so they are parameters. */
  method UserServiceScenario(userWithCard: string, userWithoutCard: string,
                             firstId: string, secondId: string, thirdId: string, unknownId: string)
      returns (first: Result<string>, unknownUser: Result<string>, knownUser: Result<string>,
               missingCard: Result<Card>, foundCard: Result<Card>, duplicate: Result<string>,
               second: Result<string>, users: set<string>)
    requires userWithCard != userWithoutCard && firstId != secondId && unknownId != firstId
    ensures first == Success(firstId)
    ensures unknownUser == Failure(NoCardForUser)
    ensures knownUser == Success(firstId)
    ensures missingCard == Failure(CardDoesNotExist)
    ensures foundCard == Success(Card(firstId, userWithCard))
    ensures duplicate == Failure(DuplicateCard)
    ensures second == Success(secondId)
    ensures users == {userWithCard, userWithoutCard}
  {
    var service := new UserService();
    assert service.UserIds() == {};
    first := service.CreateCardForUser(userWithCard, firstId);
    unknownUser := service.CardIdForUser(userWithoutCard);
    knownUser := service.CardIdForUser(userWithCard);
    missingCard := service.GetCard(unknownId);
    foundCard := service.GetCard(firstId);
    duplicate := service.CreateCardForUser(userWithCard, thirdId);
    second := service.CreateCardForUser(userWithoutCard, secondId);
    users := service.UserIds();
  }
}
