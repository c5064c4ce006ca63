/** The six topics of the airport vocabulary. The flashcard deck and the
    word-picture match list the same 53 words topic by topic, in the same
    order and with the same number of words per topic. */
module Topics {

  datatype Category = Booking | Airline | Checkin | Status | Luggage | Security

  /** The number of words in either table. */
  const VocabularySize := 53

  /** The topic of the `n`-th word (counting from 1): six for booking, sixteen
      for the airline, eight for check-in, ten for flight status, six for
      luggage and seven for security. */
  function CategoryOf(n: nat): Category
    requires 1 <= n <= VocabularySize
  {
    if n <= 6 then Booking
    else if n <= 22 then Airline
    else if n <= 30 then Checkin
    else if n <= 40 then Status
    else if n <= 46 then Luggage
    else Security
  }

  /** The position (counting from 1) of the first word of each topic. */
  function FirstOf(c: Category): (n: nat)
    ensures 1 <= n <= VocabularySize && CategoryOf(n) == c
  {
    match c
    case Booking => 1
    case Airline => 7
    case Checkin => 23
    case Status => 31
    case Luggage => 41
    case Security => 47
  }
}
