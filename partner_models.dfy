/**
 * PartnerDetailManager.create (ggongsul/partner/models.py): draw a secret token
 * not held by any existing PartnerDetail, giving up after a bounded number of
 * collisions, and store it in the creation arguments.
 *
 * secrets.token_hex(16) is the parameter draw: its i-th call (from 0) returns
 * draw(i). The existing tokens are the set the uniqueness query looks in.
 */
module PartnerModels {
  import opened Wrappers
  import Text

  const SECRET_TOKEN_KEY: string := "secret_token"
  /** The loop gives up once retry_cnt exceeds this bound. */
  const MAX_RETRY: nat := 5
  /** Candidates drawn before giving up: the first one plus MAX_RETRY + 1 redraws. */
  const CANDIDATES: nat := MAX_RETRY + 2

  /** token_hex(16): 16 random bytes as 32 lower-case hexadecimal digits. */
  predicate IsToken(t: string) { |t| == 32 && Text.AllLowerHex(t) }

  /** CommError("Secret token generation failed"). */
  datatype CommError = TokenGenerationFailed

  /** The first candidate from the i-th on that is not already taken, if any is among the allowed ones. */
  function FirstFreeDraw(existing: set<string>, draw: nat -> string, i: nat): (k: Option<nat>)
    requires i <= CANDIDATES
    ensures k.Some? ==> i <= k.value < CANDIDATES && draw(k.value) !in existing
    ensures k.Some? ==> forall j :: i <= j < k.value ==> draw(j) in existing
    ensures k.None? ==> forall j :: i <= j < CANDIDATES ==> draw(j) in existing
    decreases CANDIDATES - i
  {
    if i == CANDIDATES then None
    else if draw(i) !in existing then Some(i)
    else FirstFreeDraw(existing, draw, i + 1)
  }

  /**
   * PartnerDetailManager.create up to the row insert: returns the arguments the
   * row is created with and how many tokens were drawn. The stored token is the
   * first free candidate; nothing but secret_token is set; when all seven
   * candidates collide the manager raises and nothing is stored.
   */
  method CreatePartnerDetail(objData: map<string, string>, existing: set<string>, draw: nat -> string)
    returns (r: Result<map<string, string>, CommError>, drawn: nat)
    requires forall i :: IsToken(draw(i))
    ensures var k := FirstFreeDraw(existing, draw, 0);
            && (r.Success? <==> k.Some?)
            && (r.Failure? ==> r.error == TokenGenerationFailed && drawn == CANDIDATES)
            && (r.Success? ==> r.value == objData[SECRET_TOKEN_KEY := draw(k.value)] && drawn == k.value + 1)
    ensures drawn <= CANDIDATES
    ensures r.Success? ==> && SECRET_TOKEN_KEY in r.value
                           && IsToken(r.value[SECRET_TOKEN_KEY])
                           && r.value[SECRET_TOKEN_KEY] !in existing
                           && r.value.Keys == objData.Keys + {SECRET_TOKEN_KEY}
                           && forall key :: key in objData && key != SECRET_TOKEN_KEY ==> r.value[key] == objData[key]
  {
    var tokenStr := draw(0);
    drawn := 1;
    var retryCnt: nat := 0;
    while tokenStr in existing
      invariant retryCnt <= MAX_RETRY + 1 && drawn == retryCnt + 1
      invariant tokenStr == draw(retryCnt)
      invariant FirstFreeDraw(existing, draw, 0) == FirstFreeDraw(existing, draw, retryCnt)
      decreases MAX_RETRY + 1 - retryCnt
    {
      if retryCnt > MAX_RETRY {
        return Failure(TokenGenerationFailed), drawn;
      }
      tokenStr := draw(retryCnt + 1);
      drawn := drawn + 1;
      retryCnt := retryCnt + 1;
    }
    r := Success(objData[SECRET_TOKEN_KEY := tokenStr]);
  }

  /**
   * The manager fails only in the unlikely case that every allowed candidate is
   * already taken; any free candidate among the seven is found.
   */
  lemma FailsOnlyWhenAllTaken(existing: set<string>, draw: nat -> string, j: nat)
    requires j < CANDIDATES && draw(j) !in existing
    ensures FirstFreeDraw(existing, draw, 0).Some?
    ensures FirstFreeDraw(existing, draw, 0).value <= j
  {
  }
}
