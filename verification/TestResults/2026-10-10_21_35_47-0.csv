TestResult.DisplayName,TestResult.Outcome,TestResult.Duration,TestResult.ResourceCount,RandomSeed
LexerSpec.LayoutSplit (correctness),Failed,00:00:01.2664736,8095413,2
LexExamples.LexNegLess (correctness),Passed,00:00:01.0511175,1461442,2
ParserSpec.PairStart (correctness),Passed,00:00:00.8359040,2884233,2
LexerSpec.SkipsWhitespace (correctness),Passed,00:00:00.8104572,1471627,2
LexExamples.LexNeg (correctness),Passed,00:00:00.7934839,1100619,2
EvalExamples.EvalNegation (correctness),Passed,00:00:00.7193700,1122394,2
LexExamples.LexDoubleMinus (correctness),Passed,00:00:00.6695196,824946,2
Pipeline.RunStages (correctness),Passed,00:00:00.6555571,403419,2
Pipeline.Run (well-formedness),Passed,00:00:00.6449685,402651,2
LexExamples.LexComparison (correctness),Passed,00:00:00.6126396,484264,2
Pipeline.DoubleMinusExample (correctness),Passed,00:00:00.6101752,413358,2
Pipeline.ParenExample (correctness),Passed,00:00:00.5770625,419286,2
LexExamples.OnePlusLayout (correctness),Passed,00:00:00.5482164,770117,2
Parser.ParseFunctions (well-formedness),Passed,00:00:00.5205487,1300835,2
EvaluatorSpec.DoubleNegation (correctness),Passed,00:00:00.5122672,981559,2
Parser.ParseIfExpression (well-formedness),Passed,00:00:00.5073444,1687874,2
Pipeline.NegExample (correctness),Passed,00:00:00.4931647,414088,2
EvaluatorSpec.ParseIntSignExamples (correctness),Passed,00:00:00.4924268,900820,2
ParserSpec.SignedRightOperand (correctness),Passed,00:00:00.4859130,823891,2
EvalExamples.SmallInts (correctness),Passed,00:00:00.4773652,457467,2
Pipeline.NegLessExample (correctness),Passed,00:00:00.4612221,413420,2
Pipeline.ComparisonExample (correctness),Passed,00:00:00.4573800,408689,2
Pipeline.PrecedenceExample (correctness),Passed,00:00:00.4521122,416958,2
LexExamples.LexPrecedence (correctness),Passed,00:00:00.4446771,715965,2
EvalExamples.EvalNegLess (correctness),Passed,00:00:00.4423911,671088,2
ParserSpec.ComparisonDiverges (correctness),Passed,00:00:00.4354302,1168780,2
EvalExamples.EvalLit (correctness),Passed,00:00:00.4256912,197103,2
EvaluatorSpec.ParseIntHexExample (correctness),Passed,00:00:00.3747865,862978,2
LexerSpec.LayoutFirstToken (correctness),Passed,00:00:00.3745359,880453,2
Builtins.Register (well-formedness),Passed,00:00:00.3725884,1481849,2
EvalExamples.EvalPrecedence (correctness),Passed,00:00:00.3585477,498388,2
EvaluatorSpec.ParseIntNaNExamples (correctness),Passed,00:00:00.3566664,631602,2
LexExamples.ProductLayout (correctness),Passed,00:00:00.3447133,472701,2
LexExamples.ParenLayout (correctness),Passed,00:00:00.3441324,711336,2
ParserSpec.ParenthesizedGrouping (correctness),Passed,00:00:00.3372950,466212,2
LexExamples.OpLexable (correctness),Passed,00:00:00.3335940,314172,2
LexerSpec.LexesOneToken (correctness),Passed,00:00:00.3317880,630472,2
ParserSpec.PrefixGrouping (correctness),Passed,00:00:00.3136563,508416,2
LexerSpec.ReadsNumber (correctness),Passed,00:00:00.3025147,452860,2
ParserSpec.StatementStalls (well-formedness),Passed,00:00:00.3005044,201546,2
ParserSpec.StatementStalls (correctness),Passed,00:00:00.2947781,245782,2
LexExamples.CloseTimesLayout (correctness),Passed,00:00:00.2927877,532962,2
ParserSpec.LeftGrouping (correctness),Passed,00:00:00.2823148,653582,2
LexExamples.PlusTwoCloseLayout (correctness),Passed,00:00:00.2819710,553242,2
EvalExamples.EvalBinary (correctness),Passed,00:00:00.2788589,203776,2
LexerSpec.Spelling (well-formedness),Passed,00:00:00.2776834,166725,2
LexExamples.TwoCloseLayout (correctness),Passed,00:00:00.2737144,407702,2
EvalExamples.EvalDoubleMinus (correctness),Passed,00:00:00.2722705,243962,2
LexerSpec.Lexable (well-formedness),Passed,00:00:00.2704960,66451,2
LexerSpec.GapSkipped (correctness),Passed,00:00:00.2686622,681101,2
LexerSpec.ReadsNumberSpelling (correctness),Passed,00:00:00.2680923,566294,2
LexerSpec.ReadsTwoChar (correctness),Passed,00:00:00.2601616,445776,2
BuiltinsSpec.BuiltinLen (correctness),Passed,00:00:00.2567146,350486,2
ParseExamples.ParsePrecedence (correctness),Passed,00:00:00.2513060,290673,2
LexExamples.IntLexable (correctness),Passed,00:00:00.2494147,113344,2
EvalExamples.EvalSingleStatement (correctness),Passed,00:00:00.2492198,217287,2
ParserSpec.IntOperand (correctness),Passed,00:00:00.2472199,421631,2
ParseExamples.ParseDoubleMinus (well-formedness),Passed,00:00:00.2466620,210548,2
ParseExamples.ParseDoubleMinus (correctness),Passed,00:00:00.2355874,291794,2
EvalExamples.EvalParen (correctness),Passed,00:00:00.2355523,268345,2
ParserSpec.LetWithoutSemicolon (correctness),Passed,00:00:00.2323061,558229,2
ParserSpec.IntThenInfix (correctness),Passed,00:00:00.2319717,327426,2
EvaluatorSpec.IfChoosesOnTrue (correctness),Passed,00:00:00.2319716,208806,2
BuiltinsSpec.BuiltinLen (well-formedness),Passed,00:00:00.2287369,273061,2
ParseExamples.ParseNeg (correctness),Passed,00:00:00.2221188,272041,2
ParserSpec.BareLetCrashes (correctness),Passed,00:00:00.2220082,309586,2
ParseExamples.ParsePrecedence (well-formedness),Passed,00:00:00.2215345,213253,2
LexerSpec.ReadsSingleChar (correctness),Passed,00:00:00.2182155,340429,2
LexExamples.LayoutCons (correctness),Passed,00:00:00.2169939,170672,2
ParserSpec.RightGrouping (correctness),Passed,00:00:00.2122619,425837,2
LexerSpec.ReadsWordSpelling (well-formedness),Passed,00:00:00.2118419,146399,2
EvalExamples.EvalNeg (correctness),Passed,00:00:00.2057629,237016,2
LexerSpec.ReadsWord (correctness),Passed,00:00:00.2049619,263435,2
ParseExamples.ParseParen (correctness),Passed,00:00:00.2047216,376376,2
ParserSpec.ArgumentsDiverge (correctness),Passed,00:00:00.2004731,241517,2
Tokens.KeywordKind (well-formedness),Passed,00:00:00.1991224,110873,2
ParserSpec.LiteralStatement (correctness),Passed,00:00:00.1986394,416076,2
ParserSpec.LetStatementParses (correctness),Passed,00:00:00.1977642,332333,2
ParserSpec.PrefixThenInfix (correctness),Passed,00:00:00.1970391,215201,2
Builtins.PushBuiltin (well-formedness),Passed,00:00:00.1900830,96882,2
Parser.ParseElse (well-formedness),Passed,00:00:00.1880409,292274,2
EvaluatorSpec.ProgramStopsAtReturn (correctness),Passed,00:00:00.1873910,238175,2
LexExamples.IntLexable (well-formedness),Passed,00:00:00.1866389,94117,2
Builtins.PopBuiltin (well-formedness),Passed,00:00:00.1863621,113874,2
ParserSpec.InfixEnds (well-formedness),Passed,00:00:00.1857852,203061,2
EvalExamples.EvalArithmetic (correctness),Passed,00:00:00.1853947,193172,2
ParserSpec.SingleExpressionProgram (correctness),Passed,00:00:00.1853198,335926,2
ParserSpec.PrefixStep (well-formedness),Passed,00:00:00.1848155,208818,2
EvaluatorSpec.ParseIntStops (correctness),Passed,00:00:00.1841043,502085,2
ParserSpec.BlockDiverges (correctness),Passed,00:00:00.1837320,274360,2
LexerSpec.ReadsSpelling (correctness),Passed,00:00:00.1829508,216519,2
ParserSpec.PrefixGrouping (well-formedness),Passed,00:00:00.1822021,216293,2
ParserSpec.SingleExpressionProgram (well-formedness),Passed,00:00:00.1821237,211075,2
EvaluatorSpec.ProgramValueIsLast (correctness),Passed,00:00:00.1806354,278466,2
ParserSpec.InfixInt (correctness),Passed,00:00:00.1802545,316142,2
Evaluator.DigitsValue (well-formedness),Passed,00:00:00.1788664,1354614,2
Parser.ParseCallExpression (well-formedness),Passed,00:00:00.1770081,423496,2
LexerSpec.LayoutSplit (well-formedness),Passed,00:00:00.1758435,172093,2
ParserSpec.LetWithoutSemicolon (well-formedness),Passed,00:00:00.1756702,215303,2
Parser.ParseProgram (well-formedness),Passed,00:00:00.1743217,208638,2
LexerSpec.ReadsSpelling (well-formedness),Passed,00:00:00.1738542,145848,2
ParseExamples.ProgramComparison (correctness),Passed,00:00:00.1733159,214235,2
ParserSpec.GroupedStep (correctness),Passed,00:00:00.1731319,238758,2
ParserSpec.LiteralStatementShort (correctness),Passed,00:00:00.1728216,235475,2
BuiltinsSpec.PopKeepsLen (correctness),Passed,00:00:00.1726779,128305,2
ParserSpec.ArgumentsDiverge (well-formedness),Passed,00:00:00.1708992,201186,2
ParserSpec.InfixStep (correctness),Passed,00:00:00.1705716,225776,2
ParserSpec.LetStatementParses (well-formedness),Passed,00:00:00.1704772,207334,2
Parser.ParseCallArguments (well-formedness),Passed,00:00:00.1704408,242782,2
ParseExamples.ProgramNeg (well-formedness),Passed,00:00:00.1699875,216491,2
EvaluatorSpec.BlockIgnoresLets (correctness),Passed,00:00:00.1693845,239080,2
Builtins.CreateBuiltins (well-formedness),Passed,00:00:00.1684398,423182,2
ParserSpec.ProgramDiverges (correctness),Passed,00:00:00.1680680,263452,2
ParserSpec.ReturnDiverges (correctness),Passed,00:00:00.1679737,217389,2
Parser.ParseLetStatement (well-formedness),Passed,00:00:00.1678621,501091,2
EvaluatorSpec.ParseIntDigits (correctness),Passed,00:00:00.1677805,298136,2
ParseExamples.ParseNegLess (correctness),Passed,00:00:00.1669604,267255,2
ParseExamples.ParseNegLess (well-formedness),Passed,00:00:00.1667273,211086,2
EvaluatorSpec.ProgramIgnoresLets (correctness),Passed,00:00:00.1660476,241660,2
ParseExamples.ProgramPrecedence (correctness),Passed,00:00:00.1647618,210984,2
ParseExamples.ProgramParen (correctness),Passed,00:00:00.1647279,212451,2
ParserSpec.RightGrouping (well-formedness),Passed,00:00:00.1646150,219466,2
ParserSpec.LoopStep (correctness),Passed,00:00:00.1638326,220543,2
EvaluatorSpec.ParseIntZerosExample (correctness),Passed,00:00:00.1637684,357867,2
ParseExamples.ProgramNegLess (well-formedness),Passed,00:00:00.1636998,216516,2
LexerSpec.KeywordIsLexable (correctness),Passed,00:00:00.1629426,159413,2
ParserSpec.InfixInt (well-formedness),Passed,00:00:00.1626395,212180,2
ParserSpec.PrefixAlone (correctness),Passed,00:00:00.1626013,262333,2
Parser.ParseExpression (well-formedness),Passed,00:00:00.1616267,254098,2
ParseExamples.ProgramPrecedence (well-formedness),Passed,00:00:00.1604845,218504,2
Parser.ParsePrefix (well-formedness),Passed,00:00:00.1603639,253643,2
ParserSpec.LiteralStatement (well-formedness),Passed,00:00:00.1602678,205243,2
EvaluatorSpec.ProgramOfLetsIsNull (correctness),Passed,00:00:00.1600323,192006,2
ParseExamples.ProgramNeg (correctness),Passed,00:00:00.1597086,208234,2
ParserSpec.Grouping (well-formedness),Passed,00:00:00.1590385,219037,2
Parser.ParseGroupedExpression (well-formedness),Passed,00:00:00.1584409,270083,2
LexerSpec.ReadsNumberSpelling (well-formedness),Passed,00:00:00.1570110,145970,2
ParserSpec.PrefixStep (correctness),Passed,00:00:00.1568279,269595,2
EvaluatorSpec.NestedReturnUnwrapped (well-formedness),Passed,00:00:00.1556983,187631,2
EvaluatorSpec.ParseIntHex (correctness),Passed,00:00:00.1553476,294134,2
LexerSpec.SingleCharToken (correctness),Passed,00:00:00.1542063,321158,2
Parser.ParseIdentifier (well-formedness),Passed,00:00:00.1537828,225193,2
ParseExamples.ProgramDoubleMinus (well-formedness),Passed,00:00:00.1536828,216187,2
ParserSpec.PairOperands (correctness),Passed,00:00:00.1527566,227248,2
ParseExamples.ParseNeg (well-formedness),Passed,00:00:00.1515021,210962,2
LexerSpec.ReadsOperator (correctness),Passed,00:00:00.1508919,164292,2
ParserSpec.PrefixAlone (well-formedness),Passed,00:00:00.1481719,208100,2
BuiltinsSpec.PushLeavesOthers (well-formedness),Passed,00:00:00.1480895,78291,2
ParserSpec.LeftGrouping (well-formedness),Passed,00:00:00.1478242,219429,2
ParserSpec.BlockDiverges (well-formedness),Passed,00:00:00.1458296,201913,2
LexExamples.LexParen (correctness),Passed,00:00:00.1453188,163362,2
LexExamples.Finish (correctness),Passed,00:00:00.1447410,152803,2
Evaluator.EvalProgram (well-formedness),Passed,00:00:00.1441420,192879,2
ParserSpec.LoopStep (well-formedness),Passed,00:00:00.1437235,207756,2
BuiltinsSpec.CallLenOnString (well-formedness),Passed,00:00:00.1416006,164600,2
ParserSpec.PairStart (well-formedness),Passed,00:00:00.1414786,214172,2
ParserSpec.Grouping (correctness),Passed,00:00:00.1388921,218254,2
EvaluatorSpec.ParseIntJunkExample (correctness),Passed,00:00:00.1376994,232583,2
EvaluatorSpec.LetsKeepResult (correctness),Passed,00:00:00.1374666,195590,2
Utils.IsBinaryOperator (well-formedness),Passed,00:00:00.1369501,324985,2
Builtins.Len (well-formedness),Passed,00:00:00.1361007,103132,2
EvaluatorSpec.ParseIntSkipsSpace (correctness),Passed,00:00:00.1358697,126346,2
Parser.ParseInfix (well-formedness),Passed,00:00:00.1355389,226559,2
LexerSpec.FirstTokenMaximal (well-formedness),Passed,00:00:00.1347716,168510,2
LexerSpec.UnlexRoundTrip (well-formedness),Passed,00:00:00.1345941,141403,2
ParserSpec.InfixStep (well-formedness),Passed,00:00:00.1338055,203206,2
ParserSpec.ProgramDiverges (well-formedness),Passed,00:00:00.1329786,206619,2
ParseExamples.ParseParen (well-formedness),Passed,00:00:00.1323477,214247,2
ParseExamples.ProgramParen (well-formedness),Passed,00:00:00.1315913,219614,2
Parser.ParseStatement (well-formedness),Passed,00:00:00.1312325,224513,2
ParserSpec.GroupedStep (well-formedness),Passed,00:00:00.1297915,209839,2
ParseExamples.ProgramDoubleMinus (correctness),Passed,00:00:00.1296560,207903,2
ParserSpec.PrefixThenInfix (well-formedness),Passed,00:00:00.1291275,205828,2
EvaluatorSpec.RunsThrough (well-formedness),Passed,00:00:00.1289831,183277,2
Lexer.ReadWord (well-formedness),Passed,00:00:00.1288833,96871,2
EvaluatorSpec.ShowNatValue (correctness),Passed,00:00:00.1286701,65981,2
ParserSpec.PairOperands (well-formedness),Passed,00:00:00.1265207,211991,2
Evaluator.EvalBlock (well-formedness),Passed,00:00:00.1231440,185606,2
LexerSpec.ReadsNumber (well-formedness),Passed,00:00:00.1227799,137026,2
Evaluator.EvalExpr (well-formedness),Passed,00:00:00.1227432,250160,2
BuiltinsSpec.CallLenOnString (correctness),Passed,00:00:00.1215996,173289,2
ObjectsSpec.ReadableIndices (correctness),Passed,00:00:00.1197590,57375,2
ParserSpec.SignedRightOperand (well-formedness),Passed,00:00:00.1196300,211498,2
LexerSpec.TokenizeFromLayout (correctness),Passed,00:00:00.1194761,186634,2
ParserSpec.InfixEnds (correctness),Passed,00:00:00.1178007,214708,2
Tokens.KeywordSpelling (well-formedness),Passed,00:00:00.1166426,35853,2
Parser.ParseBlockStatement (well-formedness),Passed,00:00:00.1164266,231652,2
LexExamples.LaidOut (well-formedness),Passed,00:00:00.1151837,103381,2
LexerSpec.ReadsOperatorSpelling (correctness),Passed,00:00:00.1150148,270305,2
Evaluator.LiteralValue (well-formedness),Passed,00:00:00.1141039,120615,2
EvaluatorSpec.BlockStopsAtReturn (well-formedness),Passed,00:00:00.1137372,187466,2
EvaluatorSpec.ZerosPrefixValue (correctness),Passed,00:00:00.1127130,119106,2
EvaluatorSpec.NestedReturnUnwrapped (correctness),Passed,00:00:00.1112557,221892,2
LexerSpec.LayoutFirstToken (well-formedness),Passed,00:00:00.1111263,186949,2
ParseExamples.ProgramNegLess (correctness),Passed,00:00:00.1106932,208251,2
ParserSpec.InfixStops (well-formedness),Passed,00:00:00.1104499,200410,2
Builtins.Arg (well-formedness),Passed,00:00:00.1102036,17530,2
EvaluatorSpec.BlockStopsAtReturn (correctness),Passed,00:00:00.1081847,225036,2
LexExamples.LayoutCons (well-formedness),Passed,00:00:00.1079459,125744,2
ParserSpec.ParenthesizedGrouping (well-formedness),Passed,00:00:00.1071068,216249,2
Evaluator.EvalStatementsFrom (well-formedness),Passed,00:00:00.1070656,203023,2
BuiltinsSpec.PushVisibleThroughAlias (correctness),Passed,00:00:00.1069753,135300,2
LexExamples.LayoutLast (correctness),Passed,00:00:00.1067747,129697,2
LexerSpec.LayoutRoundTrip (correctness),Passed,00:00:00.1065947,162935,2
ParserSpec.InfixStops (correctness),Passed,00:00:00.1059071,208481,2
LexerSpec.LexesOneToken (well-formedness),Passed,00:00:00.1049509,141414,2
Parser.ParseLoop (well-formedness),Passed,00:00:00.1048683,235358,2
EvaluatorSpec.IfSwap (correctness),Passed,00:00:00.1045609,252890,2
Utils.CharClasses (correctness),Passed,00:00:00.1045203,332512,2
Evaluator.EvalBlockFrom (well-formedness),Passed,00:00:00.1041244,217374,2
ParserSpec.IntOperand (well-formedness),Passed,00:00:00.1036964,205141,2
LexerSpec.TokenizeFromLayout (well-formedness),Passed,00:00:00.1036259,145683,2
ParserSpec.IntThenInfix (well-formedness),Passed,00:00:00.1034181,206428,2
LexerSpec.ReadsWordSpelling (correctness),Passed,00:00:00.1019944,261724,2
Evaluator.EvalOpt (well-formedness),Passed,00:00:00.1016073,191095,2
LexerSpec.ReadsTwoChar (well-formedness),Passed,00:00:00.1005533,136584,2
Evaluator.UnaryOp (well-formedness),Passed,00:00:00.0999872,46922,2
Parser.ParsePrefixExpression (well-formedness),Passed,00:00:00.0986634,213489,2
LexerSpec.KeywordIsLexable (well-formedness),Passed,00:00:00.0984686,94077,2
EvalExamples.NumericArith (correctness),Passed,00:00:00.0981721,95525,2
LexerSpec.Separated (well-formedness),Passed,00:00:00.0968947,162450,2
EvaluatorSpec.BlockIgnoresLets (well-formedness),Passed,00:00:00.0960422,183534,2
LexerSpec.OperatorSpelling (correctness),Passed,00:00:00.0942610,203687,2
Builtins.CallNative (well-formedness),Passed,00:00:00.0928796,198689,2
BuiltinsSpec.PushVisibleThroughAlias (well-formedness),Passed,00:00:00.0905962,131427,2
Parser.ParseFunctionParameters (well-formedness),Passed,00:00:00.0893705,203589,2
Lexer.NextToken (well-formedness),Passed,00:00:00.0853320,157191,2
Store.Parent (well-formedness),Passed,00:00:00.0845573,20107,2
LexerSpec.Unlex (well-formedness),Passed,00:00:00.0831408,94136,2
EvaluatorSpec.AllRunThrough (well-formedness),Passed,00:00:00.0815278,186582,2
LexerSpec.SingleCharToken (well-formedness),Passed,00:00:00.0807947,101959,2
LexerSpec.ReadsOperator (well-formedness),Passed,00:00:00.0807220,137248,2
BuiltinsSpec.PopKeepsLen (well-formedness),Passed,00:00:00.0788204,102464,2
LexerSpec.SingleCharSpelling (correctness),Passed,00:00:00.0781165,244065,2
LexerSpec.LayoutStart (well-formedness),Passed,00:00:00.0775542,105968,2
LexerSpec.SeparatedTail (well-formedness),Passed,00:00:00.0768502,101457,2
Objects.NewArray (well-formedness),Passed,00:00:00.0753226,11389,2
LexerSpec.LetterIsNoOperator (correctness),Passed,00:00:00.0735323,105214,2
LexerSpec.ReadsSingleChar (well-formedness),Passed,00:00:00.0731987,137047,2
LexerSpec.ReadsTokenAt (well-formedness),Passed,00:00:00.0726281,122137,2
LexerSpec.SpacesSeparated (well-formedness),Passed,00:00:00.0726238,102035,2
LexExamples.OpLexable (well-formedness),Passed,00:00:00.0724373,94032,2
LexExamples.LayoutLast (well-formedness),Passed,00:00:00.0723308,106174,2
ParserSpec.ThreeOperands (well-formedness),Passed,00:00:00.0722719,57484,2
LexerSpec.Layout (well-formedness),Passed,00:00:00.0709642,115277,2
LexerSpec.GapSkipped (well-formedness),Passed,00:00:00.0704614,103874,2
Lexer.TokenizeFrom (well-formedness),Passed,00:00:00.0704454,173497,2
LexerSpec.TokenizeAtEnd (well-formedness),Passed,00:00:00.0697590,101248,2
LexerSpec.SpacesSeparated (correctness),Passed,00:00:00.0687436,143880,2
LexerSpec.LexableIsNotEof (correctness),Passed,00:00:00.0685420,77776,2
LexerSpec.SeparatedTail (correctness),Passed,00:00:00.0683481,163321,2
LexerSpec.ReadsWord (well-formedness),Passed,00:00:00.0679099,137026,2
LexerSpec.ReadsOperatorSpelling (well-formedness),Passed,00:00:00.0677749,110427,2
LexerSpec.KeywordSpellingIsIdentifier (correctness),Passed,00:00:00.0676937,232211,2
LexerSpec.FirstTokenMaximal (correctness),Passed,00:00:00.0662913,154040,2
BuiltinsSpec.StrIdempotent (well-formedness),Passed,00:00:00.0656944,65389,2
LexerSpec.TokenizeFromStep (correctness),Passed,00:00:00.0647391,121619,2
LexerSpec.LayoutRoundTrip (well-formedness),Passed,00:00:00.0639457,146920,2
LexerSpec.UnlexRoundTrip (correctness),Passed,00:00:00.0627415,155216,2
Lexer.Tokenize (well-formedness),Passed,00:00:00.0620518,127932,2
EvaluatorSpec.ParseIntPlus (correctness),Passed,00:00:00.0620389,116045,2
LexerSpec.KeywordSpellingIsIdentifier (well-formedness),Passed,00:00:00.0619489,44184,2
LexerSpec.TokenizeAcrossGap (correctness),Passed,00:00:00.0610201,130848,2
BuiltinsSpec.StrIdempotent (correctness),Passed,00:00:00.0607504,76993,2
LexerSpec.TokenizeAcrossGap (well-formedness),Passed,00:00:00.0593874,111346,2
BuiltinsSpec.PushLeavesOthers (correctness),Passed,00:00:00.0588350,75670,2
Evaluator.Numeric (well-formedness),Passed,00:00:00.0567054,76327,2
Store.Get (well-formedness),Passed,00:00:00.0552360,82073,2
ObjectsSpec.DictSetThenAt (correctness),Passed,00:00:00.0541920,109726,2
ObjectsSpec.CounterNeverBelowCount (correctness),Passed,00:00:00.0540086,100067,2
Objects.Pop (well-formedness),Passed,00:00:00.0532506,98761,2
Store.NewStore (well-formedness),Passed,00:00:00.0512217,46120,2
BuiltinsSpec.DictsAreFresh (correctness),Passed,00:00:00.0511488,62756,2
EvaluatorSpec.NotEqNegatesEq (correctness),Passed,00:00:00.0503492,87477,2
Parser.OperandPrecedence (well-formedness),Passed,00:00:00.0492827,28701,2
ObjectsSpec.PopDrift (correctness),Passed,00:00:00.0492134,80811,2
LexerSpec.TokenizeFromStep (well-formedness),Passed,00:00:00.0481256,101068,2
EvaluatorSpec.ParseIntMinus (correctness),Passed,00:00:00.0473906,73185,2
LexerSpec.SkipsWhitespace (well-formedness),Passed,00:00:00.0473822,95646,2
Utils.GetPrecedence (well-formedness),Passed,00:00:00.0473202,68585,2
Builtins.StrBuiltin (well-formedness),Passed,00:00:00.0471920,112056,2
LexerSpec.NextTokenIsWord (correctness),Passed,00:00:00.0468028,105074,2
ObjectsSpec.DictLengthAfterSet (correctness),Passed,00:00:00.0464010,80766,2
Objects.At (well-formedness),Passed,00:00:00.0444862,83728,2
Store.SetKeepsOthers (correctness),Passed,00:00:00.0438996,53104,2
LexerSpec.TokenizeAtEnd (correctness),Passed,00:00:00.0435257,111869,2
ObjectsSpec.CheckedIndexReads (well-formedness),Passed,00:00:00.0427584,70798,2
LexerSpec.LayoutStart (correctness),Passed,00:00:00.0419004,101654,2
Store.Set (well-formedness),Passed,00:00:00.0408375,47689,2
ObjectsSpec.CounterNeverBelowCount (well-formedness),Passed,00:00:00.0404792,75018,2
Ast.ExprsSize (well-formedness),Passed,00:00:00.0399516,46038,2
EvaluatorSpec.ParseIntUnsigned (correctness),Passed,00:00:00.0399091,67608,2
Parser.Match (well-formedness),Passed,00:00:00.0396862,47304,2
EvaluatorSpec.ParseIntDigits (well-formedness),Passed,00:00:00.0395164,40037,2
Evaluator.BinaryOp (well-formedness),Passed,00:00:00.0393759,83258,2
EvaluatorSpec.NotEqNegatesEq (well-formedness),Passed,00:00:00.0390489,71008,2
LexerSpec.AllLexable (well-formedness),Passed,00:00:00.0385162,65675,2
Objects.SetAt (well-formedness),Passed,00:00:00.0375136,81058,2
Ast.ExprSize (well-formedness),Passed,00:00:00.0372715,60880,2
Ast.OptSize (well-formedness),Passed,00:00:00.0367407,44864,2
Store.GetDelegates (correctness),Passed,00:00:00.0365242,38845,2
Store.SetThenGet (correctness),Passed,00:00:00.0351601,44492,2
ObjectsSpec.IndexExamples (correctness),Passed,00:00:00.0350875,68616,2
ParserSpec.SignedOperands (well-formedness),Passed,00:00:00.0349929,56420,2
Lexer.ReadNumber (well-formedness),Passed,00:00:00.0348661,61604,2
Store.GetDelegates (well-formedness),Passed,00:00:00.0347843,33234,2
LexerSpec.NextTokenIsWord (well-formedness),Passed,00:00:00.0343972,94128,2
Store.GetLocalIgnoresParents (correctness),Passed,00:00:00.0343693,27081,2
ObjectsSpec.CheckedIndexReads (correctness),Passed,00:00:00.0343530,71452,2
ObjectsSpec.ConsistencyKept (well-formedness),Passed,00:00:00.0338880,54338,2
Lexer.IdentifierEnd (well-formedness),Passed,00:00:00.0338375,61800,2
LexerSpec.TwoCharSpelling (correctness),Passed,00:00:00.0336233,89062,2
LexerSpec.IsIdentifier (well-formedness),Passed,00:00:00.0335582,14070,2
ObjectsSpec.PopDrift (well-formedness),Passed,00:00:00.0330284,71329,2
Builtins.DictBuiltin (well-formedness),Passed,00:00:00.0319007,57229,2
EvaluatorSpec.ParseIntZeroPadded (correctness),Passed,00:00:00.0316969,60230,2
Ast.StmtSize (well-formedness),Passed,00:00:00.0313756,48057,2
Utils.IsLVal (well-formedness),Passed,00:00:00.0312258,38755,2
EvaluatorSpec.ZerosValue (correctness),Passed,00:00:00.0304092,53600,2
ObjectsSpec.IdentityKeys (correctness),Passed,00:00:00.0295872,51970,2
EvaluatorSpec.ParseIntHex (well-formedness),Passed,00:00:00.0292794,42256,2
LexerSpec.OperatorSpelling (well-formedness),Passed,00:00:00.0285731,49935,2
Evaluator.ParseUnsigned (well-formedness),Passed,00:00:00.0283979,81141,2
ObjectsSpec.ConsistencyKept (correctness),Passed,00:00:00.0283928,59211,2
Objects.CheckIndex (well-formedness),Passed,00:00:00.0281683,38069,2
LexerSpec.SingleCharSpelling (well-formedness),Passed,00:00:00.0280282,44422,2
Ast.Node (well-formedness),Passed,00:00:00.0275488,28893,2
EvaluatorSpec.AllDigits (well-formedness),Passed,00:00:00.0270878,10569,2
Objects.CheckArrayIndexAccess (well-formedness),Passed,00:00:00.0266241,73301,2
EvaluatorSpec.RadixPrefixAppend (correctness),Passed,00:00:00.0262640,57578,2
Evaluator.RadixPrefix (well-formedness),Passed,00:00:00.0255829,67223,2
Store.GetLocal (well-formedness),Passed,00:00:00.0254336,19768,2
Utils.Precedences (well-formedness),Passed,00:00:00.0254229,26638,2
LexerSpec.WhitespaceStops (correctness),Passed,00:00:00.0253429,70687,2
EvaluatorSpec.ParseIntPlus (well-formedness),Passed,00:00:00.0249546,35671,2
LexerSpec.WordIsIdentifier (correctness),Passed,00:00:00.0248846,70259,2
EvaluatorSpec.ParseIntShowNat (correctness),Passed,00:00:00.0247890,45605,2
Ast.StmtsSize (well-formedness),Passed,00:00:00.0242339,45787,2
Objects.ElementAt (well-formedness),Passed,00:00:00.0242108,22106,2
Lexer.NumberEnd (well-formedness),Passed,00:00:00.0242105,31474,2
EvaluatorSpec.ParseIntUnsigned (well-formedness),Passed,00:00:00.0234209,35285,2
EvaluatorSpec.ZerosValue (well-formedness),Passed,00:00:00.0230638,23377,2
EvaluatorSpec.ParseIntStops (well-formedness),Passed,00:00:00.0228420,40286,2
EvaluatorSpec.ParseIntMinus (well-formedness),Passed,00:00:00.0225757,37094,2
EvaluatorSpec.ShowNatValue (well-formedness),Passed,00:00:00.0223540,23840,2
EvaluatorSpec.UnsignedNegated (correctness),Passed,00:00:00.0223205,39470,2
Utils.ShowNat (well-formedness),Passed,00:00:00.0221241,32930,2
LexerSpec.SkipWhitespace (well-formedness),Passed,00:00:00.0218897,30806,2
LexerSpec.Maximal (well-formedness),Passed,00:00:00.0218611,43031,2
ObjectsSpec.IdentityKeys (well-formedness),Passed,00:00:00.0216720,36041,2
Objects.DictSet (well-formedness),Passed,00:00:00.0216084,52289,2
Lexer.TwoCharToken (well-formedness),Passed,00:00:00.0214474,31140,2
Builtins.FunctionText (well-formedness),Passed,00:00:00.0213176,24128,2
LexExamples.SpaceIsGap (correctness),Passed,00:00:00.0209481,15131,2
Evaluator.ParseInt (well-formedness),Passed,00:00:00.0206989,48539,2
LexerSpec.ConsEof (correctness),Passed,00:00:00.0203297,20878,2
EvaluatorSpec.DropLets (well-formedness),Passed,00:00:00.0197775,37968,2
Evaluator.DigitValue (well-formedness),Passed,00:00:00.0192530,28395,2
Objects.DictAt (well-formedness),Passed,00:00:00.0187474,28595,2
Evaluator.SpacePrefix (well-formedness),Passed,00:00:00.0185069,44949,2
LexerSpec.ConsEof (well-formedness),Passed,00:00:00.0184314,17153,2
Evaluator.StrictEquals (well-formedness),Passed,00:00:00.0181973,42841,2
Parser.Render (well-formedness),Passed,00:00:00.0178621,41497,2
EvaluatorSpec.AllLets (well-formedness),Passed,00:00:00.0176511,11656,2
EvaluatorSpec.Zeros (well-formedness),Passed,00:00:00.0175720,23005,2
Store.BoundInChain (well-formedness),Passed,00:00:00.0174937,18324,2
Parser.PState.Current (well-formedness),Passed,00:00:00.0173782,15816,2
Objects.Alloc (well-formedness),Passed,00:00:00.0164693,22098,2
LexerSpec.IsDigitString (well-formedness),Passed,00:00:00.0163145,10901,2
Objects.ArrayOf (well-formedness),Passed,00:00:00.0162316,30417,2
LexerSpec.IdentifierEndIs (correctness),Passed,00:00:00.0161556,25526,2
Objects.ToPositiveIndex (well-formedness),Passed,00:00:00.0161443,10747,2
ParserSpec.PeekIsNext (correctness),Passed,00:00:00.0160887,21123,2
LexerSpec.NumberEndIs (well-formedness),Passed,00:00:00.0160357,13591,2
LexerSpec.TwoCharSpelling (well-formedness),Passed,00:00:00.0155136,40174,2
EvaluatorSpec.DigitPrefixOfDigits (correctness),Passed,00:00:00.0154798,24403,2
Objects.DictOf (well-formedness),Passed,00:00:00.0154462,35606,2
EvaluatorSpec.RadixPrefixAppend (well-formedness),Passed,00:00:00.0150672,19302,2
EvaluatorSpec.ZerosPrefixValue (well-formedness),Passed,00:00:00.0146463,26235,2
Parser.Follows (well-formedness),Passed,00:00:00.0140219,19070,2
LexerSpec.WordIsIdentifier (well-formedness),Passed,00:00:00.0139847,23097,2
Lexer.NulFree (well-formedness),Passed,00:00:00.0135924,8474,2
Lexer.PeekChar (well-formedness),Passed,00:00:00.0135267,11043,2
Lexer.Nul (well-formedness),Passed,00:00:00.0135112,3458,2
EvaluatorSpec.SplitFirst (correctness),Passed,00:00:00.0130895,29903,2
EvaluatorSpec.SplitFirst (well-formedness),Passed,00:00:00.0129905,21468,2
Builtins.ShowInt (well-formedness),Passed,00:00:00.0120766,13703,2
EvaluatorSpec.DigitPrefixOfDigits (well-formedness),Passed,00:00:00.0119333,17623,2
Parser.PState.Advance (well-formedness),Passed,00:00:00.0117731,12802,2
Parser.OptionToSeq (well-formedness),Passed,00:00:00.0117381,11179,2
Parser.PState.Peek (well-formedness),Passed,00:00:00.0113428,15853,2
Objects.DictLength (well-formedness),Passed,00:00:00.0111279,14162,2
LexerSpec.NumberEndIs (correctness),Passed,00:00:00.0110046,17876,2
Builtins.Join (well-formedness),Passed,00:00:00.0109530,12915,2
LexerSpec.NulMarksEnd (correctness),Passed,00:00:00.0108835,8700,2
LexerSpec.Spaces (well-formedness),Passed,00:00:00.0107624,20944,2
LexerSpec.IsGap (well-formedness),Passed,00:00:00.0105849,11498,2
Parser.Parsed.Extract (well-formedness),Passed,00:00:00.0104876,10817,2
Parser.PState.CurrentKind (well-formedness),Passed,00:00:00.0103940,19052,2
LexerSpec.IdentifierEndIs (well-formedness),Passed,00:00:00.0103587,18297,2
Wrappers.Option.Extract (well-formedness),Passed,00:00:00.0102276,6350,2
Lexer.CurrentChar (well-formedness),Passed,00:00:00.0101325,7082,2
ParserSpec.At (well-formedness),Passed,00:00:00.0100220,11073,2
Objects.Push (well-formedness),Passed,00:00:00.0098176,12184,2
Evaluator.Negate (well-formedness),Passed,00:00:00.0094709,9341,2
Lexer.ReadChar (well-formedness),Passed,00:00:00.0086657,9686,2
Wrappers.Result.PropagateFailure (well-formedness),Passed,00:00:00.0081623,6538,2
Wrappers.Result.Extract (well-formedness),Passed,00:00:00.0076588,6484,2
LexerSpec.NulMarksEnd (well-formedness),Passed,00:00:00.0075251,9014,2
