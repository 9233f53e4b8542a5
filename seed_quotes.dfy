/**
  The nine quotes bundled with the app as a JSON literal in QuotesRepo's
  companion object, already parsed. They are laid out column by column
  (entry `i` of the list is the `i`-th object of the JSON array), which keeps
  the long texts out of the proofs that only need the ids.
 */
module SeedData {
  import opened QuoteStore

  /** `_id` of the i-th bundled quote. */
  function SeedId(i: nat): string
    requires i < 9
  {
    match i
    case 0 => "vuGBuD1oaev3"
    case 1 => "f1aZRYvKb7Ga"
    case 2 => "TcJ1vf7DaqhU"
    case 3 => "2C-BAEVx44Os"
    case 4 => "lFPVQ6WAR4"
    case 5 => "dYKQx6tn7k-y"
    case 6 => "mvAZepcjue"
    case 7 => "n-sqGiK54E"
    case _ => "TGjbJGdKmhb"
  }

  /** `content` of the i-th bundled quote. */
  function SeedContent(i: nat): string
    requires i < 9
  {
    match i
    case 0 => "Do not go where the path may lead, go instead where there is no path and leave a trail."
    case 1 => "You have to do your own growing no matter how tall your grandfather was."
    case 2 => "It's not what you look at that matters, it's what you see."
    case 3 => "I walk slowly, but I never walk backward."
    case 4 => "True wisdom comes to each of us when we realize how little we understand about life, ourselves, and the world around us."
    case 5 => "Work like you don't need the money. Love like you've never been hurt. Dance like nobody's watching."
    case 6 => "Start with what is right rather than what is acceptable."
    case 7 => "It is the province of knowledge to speak, and it is the privilege of wisdom to listen."
    case _ => "If you only have a hammer, you tend to see every problem as a nail."
  }

  /** `author` of the i-th bundled quote. */
  function SeedAuthor(i: nat): string
    requires i < 9
  {
    match i
    case 0 => "Ralph Waldo Emerson"
    case 1 => "Abraham Lincoln"
    case 2 => "Henry David Thoreau"
    case 3 => "Abraham Lincoln"
    case 4 => "Isocrates"
    case 5 => "Satchel Paige"
    case 6 => "Franz Kafka"
    case 7 => "Oliver Wendell Holmes Jr."
    case _ => "Abraham Maslow"
  }

  /** `tags` of the i-th bundled quote. */
  function SeedTags(i: nat): seq<string>
    requires i < 9
  {
    match i
    case 0 => ["famous-quotes", "wisdom"]
    case 1 => ["famous-quotes", "life", "wisdom"]
    case 2 => ["famous-quotes", "wisdom"]
    case 3 => ["famous-quotes", "wisdom"]
    case 4 => ["wisdom"]
    case 5 => ["famous-quotes", "wisdom"]
    case 6 => ["wisdom"]
    case 7 => ["wisdom"]
    case _ => ["wisdom"]
  }

  lemma SeedIdsDistinct()
    ensures forall i, j :: 0 <= i < j < 9 ==> SeedId(i) != SeedId(j)
  {
  }

  /** The bundled list, in JSON order: nine records with pairwise distinct ids. */
  function SeedQuotes(): (seeds: seq<Quote>)
    ensures |seeds| == 9
    ensures DistinctIds(seeds)
  {
    SeedIdsDistinct();
    seq(9, i requires 0 <= i < 9 => Quote(SeedId(i), SeedContent(i), SeedAuthor(i), SeedTags(i)))
  }
}
