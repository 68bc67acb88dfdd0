/** The values the bot reads from outside: posts of the image board's search
    API, configured searches and configuration settings, and the decimal text
    that JavaScript's `String(post.id)` gives a numeric post ID. */
module Records {

  /** One element of the API's `post` array, reduced to the fields the bot reads. */
  datatype Post = Post(id: nat, fileUrl: string, tags: string, rating: string)

  /** One configured search. `tags` is the query, the key of the search's list in
      the persisted state and the title of its messages; `ratings` is appended
      to the query. */
  datatype SearchConfig = SearchConfig(tags: string, ratings: string)

  /** A scalar configuration value as JSON can give it. */
  datatype Setting = Unset | Text(text: string) | Number(value: int)

  /** JavaScript truthiness of a setting: absent, "" and 0 are false. */
  predicate Truthy(s: Setting) {
    match s
    case Unset => false
    case Text(t) => t != ""
    case Number(n) => n != 0
  }

  predicate IsDigit(c: char) {
    '0' <= c <= '9'
  }

  function DigitChar(d: nat): (c: char)
    requires d < 10
    ensures IsDigit(c) && c as int - '0' as int == d
  {
    ('0' as int + d) as char
  }

  function DigitValue(c: char): nat {
    if IsDigit(c) then c as int - '0' as int else 0
  }

  /** `String(n)` for a post ID: its decimal digits, most significant first. */
  function IdString(n: nat): (s: string)
    ensures 1 <= |s|
    ensures forall i :: 0 <= i < |s| ==> IsDigit(s[i])
    ensures s[0] == '0' ==> n == 0  // no leading zeros
    decreases n
  {
    if n < 10 then [DigitChar(n)] else IdString(n / 10) + [DigitChar(n % 10)]
  }

  /** The value of a string of decimal digits, read left to right. */
  function ParseDecimal(s: string): nat
    decreases |s|
  {
    if s == [] then 0 else 10 * ParseDecimal(s[..|s| - 1]) + DigitValue(s[|s| - 1])
  }

  /** Reading back the decimal text of an ID gives the ID. */
  lemma {:induction false} ParseIdString(n: nat)
    ensures ParseDecimal(IdString(n)) == n
  {
    var s := IdString(n);
    if n >= 10 {
      assert s[..|s| - 1] == IdString(n / 10);
      ParseIdString(n / 10);
    }
  }

  /** Two posts have the same ID string exactly when they have the same ID, so
      comparing `String(post.id)` against stored strings compares IDs. */
  lemma IdStringInjective(a: nat, b: nat)
    ensures IdString(a) == IdString(b) <==> a == b
  {
    ParseIdString(a);
    ParseIdString(b);
  }
}
