/**
 * The participants block of the route detail view: the seat arithmetic, the avatar
 * row capped at six, the dashed placeholders for free seats (at most four) and the
 * join button.
 */
module ParticipantsSection {
  import JsText

  const MAX_AVATARS: nat := 6
  const MAX_PLACEHOLDERS: int := 4

  /** `maxParticipants - currentParticipants`; negative when the event is overbooked. */
  function SpotsLeft(currentParticipants: int, maxParticipants: int): int {
    maxParticipants - currentParticipants
  }

  /** `Math.min(spotsLeft, 4)`. */
  function EmptySlots(currentParticipants: int, maxParticipants: int): int {
    var spots := SpotsLeft(currentParticipants, maxParticipants);
    if spots < MAX_PLACEHOLDERS then spots else MAX_PLACEHOLDERS
  }

  /** `String.fromCharCode(65 + index)`. */
  function FallbackLetter(index: nat): char
    requires index < MAX_AVATARS
  {
    (65 + index) as char
  }

  /** One avatar as drawn: the image source and the letter shown when it does not load. */
  datatype Avatar = Avatar(src: string, fallback: char)

  /** What the block draws. */
  datatype View = View(
    spotsLeft: int,
    avatars: seq<Avatar>,
    placeholders: nat,
    joinButton: bool)

  /**
   * The rendered block: the first six avatars lettered from 'A', the placeholder row
   * only when `emptySlots > 0`, and the join button only when `onJoin` is given.
   */
  function Render(currentParticipants: int, maxParticipants: int, participantAvatars: seq<string>, hasOnJoin: bool): View {
    var shown := JsText.JsSlice(participantAvatars, 0, MAX_AVATARS);
    var emptySlots := EmptySlots(currentParticipants, maxParticipants);
    View(
      SpotsLeft(currentParticipants, maxParticipants),
      seq(|shown|, i requires 0 <= i < |shown| => Avatar(shown[i], FallbackLetter(i))),
      if emptySlots > 0 then emptySlots else 0,
      hasOnJoin)
  }

  /**
   * The seat numbers: the free seats are the difference of capacity and sign-ups,
   * which goes negative for an overbooked event, and the placeholders are the free
   * seats capped at four, none when there is no free seat.
   */
  lemma SeatArithmetic(currentParticipants: int, maxParticipants: int, participantAvatars: seq<string>, hasOnJoin: bool)
    ensures var v := Render(currentParticipants, maxParticipants, participantAvatars, hasOnJoin);
      && v.spotsLeft + currentParticipants == maxParticipants
      && (currentParticipants > maxParticipants <==> v.spotsLeft < 0)
      && v.placeholders <= 4
      && (v.placeholders > 0 <==> v.spotsLeft > 0)
      && (0 <= v.spotsLeft <= 4 ==> v.placeholders == v.spotsLeft)
      && (v.spotsLeft >= 4 ==> v.placeholders == 4)
      && EmptySlots(currentParticipants, maxParticipants) <= 4
  {
  }

  /**
   * The avatar row: at most six avatars, the first six of the input in order, and
   * avatar `i` falls back to the `i`-th capital letter.
   */
  lemma AvatarRow(currentParticipants: int, maxParticipants: int, participantAvatars: seq<string>, hasOnJoin: bool)
    ensures var v := Render(currentParticipants, maxParticipants, participantAvatars, hasOnJoin);
      && |v.avatars| == (if |participantAvatars| < 6 then |participantAvatars| else 6)
      && (forall i :: 0 <= i < |v.avatars| ==> v.avatars[i].src == participantAvatars[i])
      && (forall i :: 0 <= i < |v.avatars| ==> v.avatars[i].fallback == "ABCDEF"[i])
      && v.joinButton == hasOnJoin
  {
    var v := Render(currentParticipants, maxParticipants, participantAvatars, hasOnJoin);
    var shown := JsText.JsSlice(participantAvatars, 0, MAX_AVATARS);
    assert |shown| == (if |participantAvatars| < 6 then |participantAvatars| else 6);
    assert forall i :: 0 <= i < |shown| ==> shown[i] == participantAvatars[i];
  }
}
