/** Boards by code, and the declaration ladders an order's quantity must satisfy. */
module LotRules {
  import opened Options

  const LOT_SIZE := 100
  const STAR_MIN_LOT_SIZE := 200

  datatype Board = Main | Gem | Star | Bj

  // An order's quantity: the order contract admits only positive integers.
  type ShareCount = n: int | n > 0 witness 100

  function UpperChar(c: char): (u: char)
  {
    if 'a' <= c <= 'z' then (c as int - 32) as char else c
  }

  function Upper(symbol: string): (u: string)
    ensures |u| == |symbol| && forall i :: 0 <= i < |u| ==> u[i] == UpperChar(symbol[i])
  {
    seq(|symbol|, i requires 0 <= i < |symbol| => UpperChar(symbol[i]))
  }

  predicate EndsWith(text: string, suffix: string)
  {
    |suffix| <= |text| && text[|text| - |suffix|..] == suffix
  }

  predicate StartsWithAny(text: string, prefixes: set<string>)
  {
    |text| >= 3 && text[..3] in prefixes
  }

  function BoardOf(symbol: string): (board: Option<Board>)
  {
    var code := Upper(symbol);
    if EndsWith(code, ".BJ") then Some(Bj)
    else if StartsWithAny(code, {"600", "601", "603", "605", "000", "001", "002", "003"}) then Some(Main)
    else if StartsWithAny(code, {"300", "301", "302"}) then Some(Gem)
    else if StartsWithAny(code, {"688", "689"}) then Some(Star)
    else None
  }

  predicate IsStarMarket(symbol: string)
  {
    EndsWith(Upper(symbol), ".SH") && StartsWithAny(Upper(symbol), {"688", "689"})
  }

  predicate IsBseMarket(symbol: string)
  {
    EndsWith(Upper(symbol), ".BJ")
  }

  predicate BuyLotAllowed(quantity: int, symbol: string)
  {
    if IsStarMarket(symbol) then quantity >= STAR_MIN_LOT_SIZE
    else if IsBseMarket(symbol) then quantity >= LOT_SIZE
    else quantity % LOT_SIZE == 0
  }

  datatype ReduceReject = BelowLotSize | NotLotAligned

  function ReduceAmountReject(shares: int, sellable: int, symbol: string): (reject: Option<ReduceReject>)
  {
    if IsStarMarket(symbol) then
      if shares >= STAR_MIN_LOT_SIZE || shares == sellable then None else Some(BelowLotSize)
    else if IsBseMarket(symbol) then
      if shares >= LOT_SIZE || shares == sellable then None else Some(BelowLotSize)
    else if shares % LOT_SIZE == 0 then None
    else
      var odd := sellable % LOT_SIZE;
      if odd != 0 && shares % LOT_SIZE == odd && shares <= sellable then None
      else if shares >= LOT_SIZE then Some(NotLotAligned) else Some(BelowLotSize)
  }

  /** Every holding can be sold out in one order, and on the ordinary boards an accepted sale
      leaves the odd tail whole or gone: the tail is never split. */
  lemma SalesKeepTheOddTailWhole(shares: ShareCount, sellable: ShareCount, symbol: string)
    ensures ReduceAmountReject(sellable, sellable, symbol).None?
    ensures !IsStarMarket(symbol) && !IsBseMarket(symbol) && shares <= sellable ==>
            (ReduceAmountReject(shares, sellable, symbol).None? <==>
             (sellable - shares) % LOT_SIZE == sellable % LOT_SIZE || (sellable - shares) % LOT_SIZE == 0)
  {}

  /** The two vocabularies agree: a Beijing code is the board `Bj`, and the STAR ladder applies to the
      codes on the STAR board that carry the Shanghai suffix. */
  lemma LaddersFollowTheBoards(symbol: string)
    ensures IsBseMarket(symbol) <==> BoardOf(symbol) == Some(Bj)
    ensures IsStarMarket(symbol) <==> BoardOf(symbol) == Some(Star) && EndsWith(Upper(symbol), ".SH")
  {
    var code := Upper(symbol);
    if IsStarMarket(symbol) {
      assert code[|code| - 3..][1] == 'S' && code[..3][0] == '6';
      assert ".BJ"[1] != 'S';
      assert !EndsWith(code, ".BJ");
      assert code[..3][1] == '8' && code[..3] != "600" && code[..3] != "000";
    }
  }

  // ---- the ladders as a minimum and a step ----

  /** The smallest declaration a board takes, and the steps above it. */
  function MinimumLot(board: Option<Board>): (shares: int) { if board == Some(Star) then 200 else 100 }
  function LotStep(board: Option<Board>): (shares: int) { if board == Some(Star) || board == Some(Bj) then 1 else 100 }

  /** The board whose ladder a code takes: the STAR ladder is for Shanghai codes. */
  function LadderBoard(symbol: string): (board: Option<Board>)
  {
    if BoardOf(symbol) == Some(Star) && !EndsWith(Upper(symbol), ".SH") then None else BoardOf(symbol)
  }

  /** A buy is declared in a minimum and steps above it: 200 and single shares on STAR, 100 and single shares
      in Beijing, hundreds elsewhere. */
  lemma BuysFollowTheLadder(shares: ShareCount, symbol: string)
    ensures var board := LadderBoard(symbol);
            BuyLotAllowed(shares, symbol) <==>
              shares >= MinimumLot(board) && (shares - MinimumLot(board)) % LotStep(board) == 0
  {
    LaddersFollowTheBoards(symbol);
    hide BoardOf;
    hide IsStarMarket;
    hide IsBseMarket;
  }

  /** A sale within what is sellable is declared the same way, or sells everything, or, where lots are
      hundreds, takes the odd tail along whole. */
  lemma SalesFollowTheLadder(shares: ShareCount, sellable: int, symbol: string)
    requires shares <= sellable
    ensures var board := LadderBoard(symbol);
            ReduceAmountReject(shares, sellable, symbol).None? <==>
              || shares == sellable
              || (LotStep(board) == 1 && shares >= MinimumLot(board))
              || (LotStep(board) == 100 && (sellable - shares) % 100 in {0, sellable % 100})
  {
    LaddersFollowTheBoards(symbol);
    hide BoardOf;
    hide IsStarMarket;
    hide IsBseMarket;
  }

  /** The boards are read off the code: Beijing by its suffix, the others by the first three digits. */
  lemma BoardsAreReadOffTheCode(symbol: string)
    requires |symbol| >= 3 && !EndsWith(Upper(symbol), ".BJ")
    ensures var code, board := Upper(symbol), BoardOf(symbol);
            && (board == Some(Main) <==>
                  || (code[..2] == "60" && code[2] in "0135") || (code[..2] == "00" && code[2] in "0123"))
            && (board == Some(Gem) <==> code[..2] == "30" && code[2] in "012")
            && (board == Some(Star) <==> code[..2] == "68" && code[2] in "89")
  {
    var code := Upper(symbol);
    ThreeLetters(code);
  }

  lemma ThreeLetters(code: string)
    requires |code| >= 3
    ensures forall prefix: string :: |prefix| == 3 ==>
              (code[..3] == prefix <==> code[0] == prefix[0] && code[1] == prefix[1] && code[2] == prefix[2])
    ensures forall prefix: string :: |prefix| == 2 ==>
              (code[..2] == prefix <==> code[0] == prefix[0] && code[1] == prefix[1])
  {}
}
