TestResult.DisplayName,TestResult.Outcome,TestResult.Duration,TestResult.ResourceCount,RandomSeed
LexerSpec.LayoutSplit (correctness),Failed,00:00:01.3997948,8095478,3
ParserSpec.RightGrouping (correctness),Passed,00:00:00.9528092,2626415,3
LexExamples.LexNeg (correctness),Passed,00:00:00.9012320,1164777,3
EvaluatorSpec.ParseIntHexExample (correctness),Passed,00:00:00.8918439,1710953,3
LexExamples.LexDoubleMinus (correctness),Passed,00:00:00.7512319,752700,3
LexExamples.LexNegLess (correctness),Passed,00:00:00.7394114,1254101,3
ParserSpec.SignedRightOperand (correctness),Passed,00:00:00.6058082,1356520,3
ParserSpec.ComparisonDiverges (correctness),Passed,00:00:00.5993301,1368977,3
Pipeline.Run (well-formedness),Passed,00:00:00.5523884,402921,3
LexerSpec.LayoutFirstToken (correctness),Passed,00:00:00.4815334,1001379,3
Parser.ParseIfExpression (well-formedness),Passed,00:00:00.4713874,1112866,3
LexExamples.LexComparison (correctness),Passed,00:00:00.4495109,487700,3
Parser.ParseFunctions (well-formedness),Passed,00:00:00.4466865,1055463,3
Pipeline.NegExample (correctness),Passed,00:00:00.4253541,414041,3
LexerSpec.SkipsWhitespace (correctness),Passed,00:00:00.4230921,801368,3
LexExamples.ParenLayout (correctness),Passed,00:00:00.4210935,1186808,3
EvalExamples.SmallInts (correctness),Passed,00:00:00.4162782,413394,3
EvaluatorSpec.DoubleNegation (correctness),Passed,00:00:00.4129065,786589,3
EvalExamples.EvalLit (correctness),Passed,00:00:00.4109747,197968,3
ParserSpec.PairStart (correctness),Passed,00:00:00.4070120,993928,3
EvaluatorSpec.ParseIntSignExamples (correctness),Passed,00:00:00.3999734,728958,3
Pipeline.PrecedenceExample (correctness),Passed,00:00:00.3866418,417105,3
EvalExamples.EvalNegLess (correctness),Passed,00:00:00.3802495,627898,3
LexExamples.OpLexable (correctness),Passed,00:00:00.3701687,329748,3
EvalExamples.EvalPrecedence (correctness),Passed,00:00:00.3667589,480726,3
Pipeline.RunStages (correctness),Passed,00:00:00.3603619,403163,3
LexExamples.LexPrecedence (correctness),Passed,00:00:00.3475827,714488,3
Pipeline.ParenExample (correctness),Passed,00:00:00.3462976,419460,3
LexerSpec.GapSkipped (correctness),Passed,00:00:00.3397550,773532,3
LexExamples.OnePlusLayout (correctness),Passed,00:00:00.3376123,656631,3
Builtins.Register (well-formedness),Passed,00:00:00.3368750,1029435,3
ParserSpec.IntThenInfix (well-formedness),Passed,00:00:00.3365871,206404,3
ParserSpec.PrefixThenInfix (correctness),Passed,00:00:00.3341625,216180,3
LexExamples.IntLexable (correctness),Passed,00:00:00.3293825,113987,3
LexerSpec.ReadsNumberSpelling (correctness),Passed,00:00:00.3251880,650761,3
ParserSpec.PrefixGrouping (correctness),Passed,00:00:00.3157716,429058,3
LexerSpec.ReadsSpelling (correctness),Passed,00:00:00.3147354,578583,3
LexerSpec.ReadsTwoChar (correctness),Passed,00:00:00.3144465,531019,3
LexerSpec.ReadsWordSpelling (correctness),Passed,00:00:00.3063118,497673,3
LexExamples.IntLexable (well-formedness),Passed,00:00:00.3045567,94073,3
Pipeline.DoubleMinusExample (correctness),Passed,00:00:00.2976843,413361,3
EvalExamples.EvalSingleStatement (correctness),Passed,00:00:00.2966978,217862,3
LexExamples.CloseTimesLayout (correctness),Passed,00:00:00.2936389,526505,3
BuiltinsSpec.BuiltinLen (well-formedness),Passed,00:00:00.2874248,273135,3
EvalExamples.EvalParen (correctness),Passed,00:00:00.2855339,268024,3
EvaluatorSpec.ParseIntStops (correctness),Passed,00:00:00.2852584,509079,3
BuiltinsSpec.BuiltinLen (correctness),Passed,00:00:00.2778033,350884,3
LexerSpec.LexesOneToken (correctness),Passed,00:00:00.2775262,454667,3
LexerSpec.FirstTokenMaximal (correctness),Passed,00:00:00.2729657,157974,3
ParseExamples.ParsePrecedence (correctness),Passed,00:00:00.2716152,307683,3
EvaluatorSpec.ParseIntNaNExamples (correctness),Passed,00:00:00.2706906,647415,3
EvalExamples.EvalBinary (correctness),Passed,00:00:00.2705166,202781,3
LexExamples.ProductLayout (correctness),Passed,00:00:00.2701127,443681,3
Pipeline.ComparisonExample (correctness),Passed,00:00:00.2663610,408673,3
Pipeline.NegLessExample (correctness),Passed,00:00:00.2658397,413344,3
Lexer.NextToken (well-formedness),Passed,00:00:00.2642409,160991,3
ParserSpec.ParenthesizedGrouping (correctness),Passed,00:00:00.2613748,417999,3
LexExamples.TwoCloseLayout (correctness),Passed,00:00:00.2593655,443644,3
EvalExamples.EvalArithmetic (correctness),Passed,00:00:00.2453137,193838,3
EvalExamples.EvalDoubleMinus (correctness),Passed,00:00:00.2399750,243905,3
LexerSpec.ReadsSingleChar (correctness),Passed,00:00:00.2347309,302860,3
Parser.ParseLetStatement (well-formedness),Passed,00:00:00.2301958,530991,3
LexExamples.PlusTwoCloseLayout (correctness),Passed,00:00:00.2240705,505280,3
LexerSpec.ReadsNumber (correctness),Passed,00:00:00.2236811,422830,3
Parser.ParseCallExpression (well-formedness),Passed,00:00:00.2226612,611367,3
ParseExamples.ParsePrecedence (well-formedness),Passed,00:00:00.2199642,213165,3
LexerSpec.SingleCharToken (correctness),Passed,00:00:00.2193700,317692,3
EvaluatorSpec.ParseIntZerosExample (correctness),Passed,00:00:00.2137453,517131,3
ParserSpec.PrefixAlone (correctness),Passed,00:00:00.2136120,257635,3
ParseExamples.ParseNegLess (correctness),Passed,00:00:00.2108639,287421,3
Lexer.TokenizeFrom (well-formedness),Passed,00:00:00.2103297,180708,3
LexerSpec.LayoutSplit (well-formedness),Passed,00:00:00.2065063,166409,3
ParserSpec.IntOperand (correctness),Passed,00:00:00.2054788,384938,3
LexerSpec.ReadsSpelling (well-formedness),Passed,00:00:00.2042554,145937,3
ParserSpec.LiteralStatementShort (correctness),Passed,00:00:00.2033819,234094,3
ParserSpec.LetWithoutSemicolon (correctness),Passed,00:00:00.2033639,543340,3
ParserSpec.StatementStalls (well-formedness),Passed,00:00:00.2029794,201493,3
Parser.ParsePrefix (well-formedness),Passed,00:00:00.1980548,253619,3
ParseExamples.ParseParen (correctness),Passed,00:00:00.1979384,361549,3
EvaluatorSpec.ParseIntHex (correctness),Passed,00:00:00.1978405,370672,3
ParserSpec.InfixStep (correctness),Passed,00:00:00.1974964,240356,3
Utils.IsBinaryOperator (well-formedness),Passed,00:00:00.1960460,343950,3
Parser.ParseGroupedExpression (well-formedness),Passed,00:00:00.1952196,262146,3
EvalExamples.EvalNegation (correctness),Passed,00:00:00.1947127,210738,3
ParserSpec.LeftGrouping (correctness),Passed,00:00:00.1937996,320499,3
ParserSpec.LetStatementParses (correctness),Passed,00:00:00.1928212,337654,3
ParserSpec.PrefixStep (correctness),Passed,00:00:00.1922097,340955,3
ParserSpec.InfixStops (correctness),Passed,00:00:00.1917489,209929,3
LexerSpec.ReadsWord (correctness),Passed,00:00:00.1911660,260126,3
ParseExamples.ParseNeg (well-formedness),Passed,00:00:00.1875451,211110,3
ParserSpec.SingleExpressionProgram (well-formedness),Passed,00:00:00.1868907,211177,3
ParserSpec.IntThenInfix (correctness),Passed,00:00:00.1867548,286110,3
ParseExamples.ParseDoubleMinus (correctness),Passed,00:00:00.1865130,286611,3
ParserSpec.ProgramDiverges (correctness),Passed,00:00:00.1828620,269043,3
ParserSpec.InfixInt (correctness),Passed,00:00:00.1806152,319935,3
BuiltinsSpec.CallLenOnString (well-formedness),Passed,00:00:00.1787812,164687,3
ParserSpec.ArgumentsDiverge (well-formedness),Passed,00:00:00.1779209,201178,3
Parser.ParseIdentifier (well-formedness),Passed,00:00:00.1777683,226605,3
ParserSpec.GroupedStep (correctness),Passed,00:00:00.1775476,248462,3
ParserSpec.Grouping (well-formedness),Passed,00:00:00.1770610,218903,3
EvaluatorSpec.ProgramStopsAtReturn (correctness),Passed,00:00:00.1765938,245553,3
ParseExamples.ProgramNeg (correctness),Passed,00:00:00.1765476,208320,3
Parser.ParsePrefixExpression (well-formedness),Passed,00:00:00.1758399,215042,3
ParseExamples.ProgramPrecedence (well-formedness),Passed,00:00:00.1751939,218557,3
Evaluator.EvalProgram (well-formedness),Passed,00:00:00.1747961,193026,3
ParserSpec.ReturnDiverges (correctness),Passed,00:00:00.1743110,217291,3
ParserSpec.LiteralStatement (correctness),Passed,00:00:00.1743085,376048,3
ParseExamples.ParseDoubleMinus (well-formedness),Passed,00:00:00.1738174,210748,3
ParseExamples.ParseNeg (correctness),Passed,00:00:00.1731886,288409,3
EvalExamples.EvalNeg (correctness),Passed,00:00:00.1730005,237052,3
EvaluatorSpec.NestedReturnUnwrapped (well-formedness),Passed,00:00:00.1720440,187633,3
ParserSpec.LiteralStatement (well-formedness),Passed,00:00:00.1719943,205127,3
ParserSpec.ArgumentsDiverge (correctness),Passed,00:00:00.1718547,240027,3
LexExamples.OpLexable (well-formedness),Passed,00:00:00.1716393,93994,3
ParserSpec.PrefixAlone (well-formedness),Passed,00:00:00.1702399,208125,3
ParserSpec.BlockDiverges (well-formedness),Passed,00:00:00.1695373,201976,3
BuiltinsSpec.PushLeavesOthers (well-formedness),Passed,00:00:00.1691387,77674,3
Evaluator.LiteralValue (well-formedness),Passed,00:00:00.1683708,120631,3
ParseExamples.ProgramDoubleMinus (well-formedness),Passed,00:00:00.1672924,216078,3
ParserSpec.PairOperands (correctness),Passed,00:00:00.1670152,229876,3
ParserSpec.PrefixStep (well-formedness),Passed,00:00:00.1667697,208776,3
Parser.ParseLoop (well-formedness),Passed,00:00:00.1665401,236490,3
EvaluatorSpec.IfChoosesOnTrue (correctness),Passed,00:00:00.1660643,215966,3
EvaluatorSpec.BlockIgnoresLets (correctness),Passed,00:00:00.1651239,247700,3
ParseExamples.ProgramNegLess (well-formedness),Passed,00:00:00.1644623,216505,3
Parser.ParseElse (well-formedness),Passed,00:00:00.1640384,296738,3
Objects.Pop (well-formedness),Passed,00:00:00.1628011,98698,3
ParserSpec.SingleExpressionProgram (correctness),Passed,00:00:00.1615497,359721,3
ParseExamples.ProgramPrecedence (correctness),Passed,00:00:00.1605247,210901,3
ParseExamples.ProgramParen (correctness),Passed,00:00:00.1600956,212367,3
EvaluatorSpec.BlockStopsAtReturn (well-formedness),Passed,00:00:00.1600946,187487,3
ParserSpec.BlockDiverges (correctness),Passed,00:00:00.1600103,262511,3
ParserSpec.LetWithoutSemicolon (well-formedness),Passed,00:00:00.1600069,216215,3
EvaluatorSpec.ProgramIgnoresLets (correctness),Passed,00:00:00.1576360,243122,3
EvaluatorSpec.RunsThrough (well-formedness),Passed,00:00:00.1570780,183253,3
Evaluator.EvalBlock (well-formedness),Passed,00:00:00.1568473,185474,3
EvaluatorSpec.ProgramValueIsLast (correctness),Passed,00:00:00.1567494,245710,3
ParseExamples.ProgramNegLess (correctness),Passed,00:00:00.1560205,208335,3
ParserSpec.LoopStep (well-formedness),Passed,00:00:00.1555534,207776,3
BuiltinsSpec.CallLenOnString (correctness),Passed,00:00:00.1549430,172216,3
Parser.ParseBlockStatement (well-formedness),Passed,00:00:00.1538304,230440,3
EvaluatorSpec.LetsKeepResult (correctness),Passed,00:00:00.1535198,195606,3
ParserSpec.PrefixGrouping (well-formedness),Passed,00:00:00.1533189,216195,3
Builtins.PopBuiltin (well-formedness),Passed,00:00:00.1532957,113866,3
LexExamples.LayoutCons (correctness),Passed,00:00:00.1531085,170575,3
ParseExamples.ParseNegLess (well-formedness),Passed,00:00:00.1530199,211143,3
ParseExamples.ProgramDoubleMinus (correctness),Passed,00:00:00.1526899,208018,3
ParserSpec.StatementStalls (correctness),Passed,00:00:00.1523307,239512,3
EvaluatorSpec.ProgramOfLetsIsNull (correctness),Passed,00:00:00.1512902,191974,3
BuiltinsSpec.PushLeavesOthers (correctness),Passed,00:00:00.1509415,75662,3
Parser.ParseExpression (well-formedness),Passed,00:00:00.1503215,242601,3
Evaluator.EvalOpt (well-formedness),Passed,00:00:00.1489281,191003,3
Parser.ParseInfix (well-formedness),Passed,00:00:00.1488572,226728,3
ParseExamples.ProgramComparison (correctness),Passed,00:00:00.1487936,214158,3
LexerSpec.ReadsNumberSpelling (well-formedness),Passed,00:00:00.1485802,146063,3
ParserSpec.LeftGrouping (well-formedness),Passed,00:00:00.1481419,219316,3
ParserSpec.LetStatementParses (well-formedness),Passed,00:00:00.1465347,206360,3
LexerSpec.ReadsOperator (correctness),Passed,00:00:00.1459689,164244,3
ParserSpec.InfixEnds (well-formedness),Passed,00:00:00.1453423,203023,3
Store.NewStore (well-formedness),Passed,00:00:00.1443913,46161,3
LexerSpec.FirstTokenMaximal (well-formedness),Passed,00:00:00.1428431,168307,3
LexerSpec.KeywordIsLexable (correctness),Passed,00:00:00.1419357,169715,3
EvaluatorSpec.ParseIntDigits (correctness),Passed,00:00:00.1413417,278859,3
ParserSpec.BareLetCrashes (correctness),Passed,00:00:00.1408074,330461,3
ParserSpec.GroupedStep (well-formedness),Passed,00:00:00.1401986,210186,3
LexerSpec.Spelling (well-formedness),Passed,00:00:00.1401904,172432,3
EvaluatorSpec.ParseIntSkipsSpace (correctness),Passed,00:00:00.1401469,128481,3
ParserSpec.InfixInt (well-formedness),Passed,00:00:00.1398985,211317,3
Parser.ParseProgram (well-formedness),Passed,00:00:00.1398584,208661,3
EvaluatorSpec.ParseIntJunkExample (correctness),Passed,00:00:00.1373586,268070,3
ParserSpec.PairStart (well-formedness),Passed,00:00:00.1372621,214150,3
ParserSpec.RightGrouping (well-formedness),Passed,00:00:00.1368701,219341,3
Parser.ParseCallArguments (well-formedness),Passed,00:00:00.1368336,240957,3
LexerSpec.SeparatedTail (correctness),Passed,00:00:00.1366743,166825,3
LexerSpec.ReadsSingleChar (well-formedness),Passed,00:00:00.1350131,137013,3
ParseExamples.ProgramParen (well-formedness),Passed,00:00:00.1341545,219718,3
EvaluatorSpec.IfSwap (correctness),Passed,00:00:00.1336920,248152,3
EvaluatorSpec.NestedReturnUnwrapped (correctness),Passed,00:00:00.1332233,220494,3
LexerSpec.ReadsWordSpelling (well-formedness),Passed,00:00:00.1320899,146403,3
LexExamples.LexParen (correctness),Passed,00:00:00.1311152,163446,3
LexerSpec.ReadsOperatorSpelling (correctness),Passed,00:00:00.1308565,280229,3
EvaluatorSpec.BlockStopsAtReturn (correctness),Passed,00:00:00.1303953,221814,3
BuiltinsSpec.PushVisibleThroughAlias (well-formedness),Passed,00:00:00.1291627,131569,3
EvaluatorSpec.ShowNatValue (correctness),Passed,00:00:00.1282239,63639,3
ParseExamples.ParseParen (well-formedness),Passed,00:00:00.1282003,214232,3
BuiltinsSpec.PopKeepsLen (correctness),Passed,00:00:00.1271999,142452,3
EvaluatorSpec.ShowNatValue (well-formedness),Passed,00:00:00.1270782,23428,3
Parser.ParseStatement (well-formedness),Passed,00:00:00.1269111,224816,3
LexExamples.Finish (correctness),Passed,00:00:00.1266144,152675,3
Evaluator.EvalStatementsFrom (well-formedness),Passed,00:00:00.1262903,204093,3
Utils.CharClasses (correctness),Passed,00:00:00.1259377,328079,3
Builtins.CreateBuiltins (well-formedness),Passed,00:00:00.1256980,399601,3
ParserSpec.PairOperands (well-formedness),Passed,00:00:00.1253707,213333,3
Evaluator.EvalExpr (well-formedness),Passed,00:00:00.1239511,250417,3
ObjectsSpec.PopDrift (correctness),Passed,00:00:00.1234941,83668,3
LexerSpec.KeywordSpellingIsIdentifier (correctness),Passed,00:00:00.1233097,241310,3
ParserSpec.LoopStep (correctness),Passed,00:00:00.1210794,220164,3
Evaluator.RadixPrefix (well-formedness),Passed,00:00:00.1210378,52947,3
ParserSpec.PrefixThenInfix (well-formedness),Passed,00:00:00.1204594,205854,3
EvaluatorSpec.AllRunThrough (well-formedness),Passed,00:00:00.1203898,186480,3
BuiltinsSpec.PushVisibleThroughAlias (correctness),Passed,00:00:00.1195356,135979,3
Lexer.ReadWord (well-formedness),Passed,00:00:00.1194245,90440,3
ParserSpec.ParenthesizedGrouping (well-formedness),Passed,00:00:00.1194102,216912,3
LexerSpec.LayoutRoundTrip (well-formedness),Passed,00:00:00.1188807,147077,3
Evaluator.EvalBlockFrom (well-formedness),Passed,00:00:00.1177879,216727,3
LexerSpec.ReadsWord (well-formedness),Passed,00:00:00.1172744,136840,3
LexerSpec.SpacesSeparated (correctness),Passed,00:00:00.1158187,136946,3
ParserSpec.ProgramDiverges (well-formedness),Passed,00:00:00.1136034,206583,3
ObjectsSpec.PopDrift (well-formedness),Passed,00:00:00.1127843,71321,3
ParserSpec.SignedRightOperand (well-formedness),Passed,00:00:00.1125263,211506,3
LexerSpec.Separated (well-formedness),Passed,00:00:00.1123336,126988,3
EvaluatorSpec.BlockIgnoresLets (well-formedness),Passed,00:00:00.1119176,183608,3
LexerSpec.TokenizeFromStep (correctness),Passed,00:00:00.1116474,123990,3
ParseExamples.ProgramNeg (well-formedness),Passed,00:00:00.1116192,216518,3
LexerSpec.TokenizeFromLayout (correctness),Passed,00:00:00.1115300,194492,3
Builtins.CallNative (well-formedness),Passed,00:00:00.1093837,198599,3
Store.Parent (well-formedness),Passed,00:00:00.1076773,20109,3
ParserSpec.IntOperand (well-formedness),Passed,00:00:00.1069892,204994,3
BuiltinsSpec.PopKeepsLen (well-formedness),Passed,00:00:00.1058353,102442,3
Evaluator.DigitValue (well-formedness),Passed,00:00:00.1056970,26046,3
ParserSpec.InfixEnds (correctness),Passed,00:00:00.1053177,219386,3
LexerSpec.ReadsTwoChar (well-formedness),Passed,00:00:00.1051558,136477,3
LexExamples.LaidOut (well-formedness),Passed,00:00:00.1019908,103384,3
LexerSpec.LayoutStart (correctness),Passed,00:00:00.1018938,100476,3
LexerSpec.KeywordIsLexable (well-formedness),Passed,00:00:00.1012830,94035,3
LexerSpec.SingleCharSpelling (correctness),Passed,00:00:00.0991450,243584,3
ParserSpec.InfixStops (well-formedness),Passed,00:00:00.0991410,200427,3
ParserSpec.InfixStep (well-formedness),Passed,00:00:00.0984007,203229,3
ParserSpec.Grouping (correctness),Passed,00:00:00.0979875,218208,3
LexExamples.LayoutCons (well-formedness),Passed,00:00:00.0978474,125755,3
LexerSpec.LayoutRoundTrip (correctness),Passed,00:00:00.0964815,162048,3
LexExamples.LayoutLast (correctness),Passed,00:00:00.0944691,130452,3
LexerSpec.ReadsNumber (well-formedness),Passed,00:00:00.0941159,136840,3
LexerSpec.Maximal (well-formedness),Passed,00:00:00.0928756,42996,3
Parser.ParseFunctionParameters (well-formedness),Passed,00:00:00.0925741,196875,3
LexerSpec.TokenizeAcrossGap (correctness),Passed,00:00:00.0920013,130774,3
LexerSpec.UnlexRoundTrip (well-formedness),Passed,00:00:00.0908453,141436,3
BuiltinsSpec.StrIdempotent (well-formedness),Passed,00:00:00.0883115,65391,3
LexerSpec.ReadsTokenAt (well-formedness),Passed,00:00:00.0879355,122121,3
LexerSpec.SpacesSeparated (well-formedness),Passed,00:00:00.0870005,102028,3
LexerSpec.UnlexRoundTrip (correctness),Passed,00:00:00.0859910,160429,3
LexerSpec.LayoutFirstToken (well-formedness),Passed,00:00:00.0812913,167431,3
LexerSpec.TokenizeFromLayout (well-formedness),Passed,00:00:00.0801330,145634,3
LexerSpec.LayoutStart (well-formedness),Passed,00:00:00.0763816,105908,3
LexerSpec.SingleCharToken (well-formedness),Passed,00:00:00.0750494,101942,3
BuiltinsSpec.StrIdempotent (correctness),Passed,00:00:00.0744813,76697,3
EvalExamples.NumericArith (correctness),Passed,00:00:00.0743719,94289,3
LexerSpec.TokenizeAcrossGap (well-formedness),Passed,00:00:00.0726812,111396,3
LexerSpec.OperatorSpelling (correctness),Passed,00:00:00.0725137,216432,3
Builtins.Len (well-formedness),Passed,00:00:00.0723398,103958,3
Objects.NewArray (well-formedness),Passed,00:00:00.0717341,11389,3
LexerSpec.TokenizeAtEnd (well-formedness),Passed,00:00:00.0704449,101294,3
LexerSpec.Layout (well-formedness),Passed,00:00:00.0687241,116167,3
EvaluatorSpec.ParseIntPlus (correctness),Passed,00:00:00.0683940,120213,3
Tokens.KeywordSpelling (well-formedness),Passed,00:00:00.0681675,35888,3
LexerSpec.TokenizeFromStep (well-formedness),Passed,00:00:00.0680537,101149,3
LexerSpec.ReadsOperator (well-formedness),Passed,00:00:00.0669114,137145,3
LexerSpec.SeparatedTail (well-formedness),Passed,00:00:00.0668767,101324,3
LexerSpec.NextTokenIsWord (correctness),Passed,00:00:00.0667666,105076,3
LexerSpec.LexesOneToken (well-formedness),Passed,00:00:00.0665712,141519,3
LexerSpec.TokenizeAtEnd (correctness),Passed,00:00:00.0664186,114521,3
Store.Get (well-formedness),Passed,00:00:00.0663518,83620,3
ParserSpec.ThreeOperands (well-formedness),Passed,00:00:00.0657786,57457,3
Objects.SetAt (well-formedness),Passed,00:00:00.0641118,81056,3
LexerSpec.GapSkipped (well-formedness),Passed,00:00:00.0639029,103801,3
Lexer.Tokenize (well-formedness),Passed,00:00:00.0638929,128764,3
Store.Set (well-formedness),Passed,00:00:00.0616725,47542,3
EvaluatorSpec.NotEqNegatesEq (correctness),Passed,00:00:00.0609292,89923,3
Objects.At (well-formedness),Passed,00:00:00.0603889,87096,3
Builtins.StrBuiltin (well-formedness),Passed,00:00:00.0590739,112026,3
BuiltinsSpec.DictsAreFresh (correctness),Passed,00:00:00.0586425,62785,3
LexerSpec.Unlex (well-formedness),Passed,00:00:00.0586083,94134,3
EvaluatorSpec.ParseIntMinus (correctness),Passed,00:00:00.0576669,72723,3
Utils.GetPrecedence (well-formedness),Passed,00:00:00.0569547,68282,3
LexExamples.LayoutLast (well-formedness),Passed,00:00:00.0548113,106201,3
EvaluatorSpec.NotEqNegatesEq (well-formedness),Passed,00:00:00.0547651,70289,3
Tokens.KeywordKind (well-formedness),Passed,00:00:00.0524028,112804,3
Builtins.DictBuiltin (well-formedness),Passed,00:00:00.0521843,57084,3
Store.SetKeepsOthers (correctness),Passed,00:00:00.0516978,53400,3
LexerSpec.LexableIsNotEof (correctness),Passed,00:00:00.0501694,77912,3
LexerSpec.Lexable (well-formedness),Passed,00:00:00.0501573,66435,3
LexerSpec.SingleCharSpelling (well-formedness),Passed,00:00:00.0491393,44420,3
LexerSpec.LetterIsNoOperator (correctness),Passed,00:00:00.0490552,105175,3
LexerSpec.NextTokenIsWord (well-formedness),Passed,00:00:00.0488330,94163,3
LexerSpec.SkipsWhitespace (well-formedness),Passed,00:00:00.0477157,95647,3
EvaluatorSpec.ParseIntUnsigned (correctness),Passed,00:00:00.0472720,55395,3
LexerSpec.ReadsOperatorSpelling (well-formedness),Passed,00:00:00.0460682,110485,3
EvaluatorSpec.ZerosPrefixValue (correctness),Passed,00:00:00.0457106,121996,3
Builtins.PushBuiltin (well-formedness),Passed,00:00:00.0455366,97082,3
Store.SetThenGet (correctness),Passed,00:00:00.0450077,44484,3
Utils.IsLVal (well-formedness),Passed,00:00:00.0449014,38761,3
ObjectsSpec.CounterNeverBelowCount (well-formedness),Passed,00:00:00.0448321,75050,3
ObjectsSpec.CounterNeverBelowCount (correctness),Passed,00:00:00.0441112,99368,3
LexerSpec.AllLexable (well-formedness),Passed,00:00:00.0437629,65690,3
ObjectsSpec.ConsistencyKept (well-formedness),Passed,00:00:00.0411169,54329,3
Objects.CheckIndex (well-formedness),Passed,00:00:00.0405966,38067,3
Store.GetDelegates (correctness),Passed,00:00:00.0404983,38849,3
EvaluatorSpec.ParseIntZeroPadded (correctness),Passed,00:00:00.0402727,59898,3
ObjectsSpec.CheckedIndexReads (correctness),Passed,00:00:00.0400911,71436,3
ObjectsSpec.DictSetThenAt (correctness),Passed,00:00:00.0400341,84231,3
ObjectsSpec.ConsistencyKept (correctness),Passed,00:00:00.0394349,59182,3
Evaluator.Numeric (well-formedness),Passed,00:00:00.0393433,77450,3
EvaluatorSpec.ZerosValue (correctness),Passed,00:00:00.0391366,55059,3
ParserSpec.SignedOperands (well-formedness),Passed,00:00:00.0391250,56407,3
Evaluator.DigitsValue (well-formedness),Passed,00:00:00.0390960,211238,3
Evaluator.BinaryOp (well-formedness),Passed,00:00:00.0372127,83297,3
ObjectsSpec.DictLengthAfterSet (correctness),Passed,00:00:00.0368988,77822,3
Store.GetDelegates (well-formedness),Passed,00:00:00.0368722,33235,3
Lexer.IdentifierEnd (well-formedness),Passed,00:00:00.0365407,58494,3
LexerSpec.WhitespaceStops (correctness),Passed,00:00:00.0362720,70809,3
Ast.ExprSize (well-formedness),Passed,00:00:00.0362387,60328,3
ObjectsSpec.IndexExamples (correctness),Passed,00:00:00.0361463,68258,3
EvaluatorSpec.ParseIntHex (well-formedness),Passed,00:00:00.0359410,42255,3
EvaluatorSpec.ParseIntPlus (well-formedness),Passed,00:00:00.0356708,35676,3
ParserSpec.PeekIsNext (correctness),Passed,00:00:00.0354531,21116,3
Lexer.ReadNumber (well-formedness),Passed,00:00:00.0348557,61614,3
ObjectsSpec.IdentityKeys (correctness),Passed,00:00:00.0348525,51839,3
LexerSpec.TwoCharSpelling (correctness),Passed,00:00:00.0345305,88716,3
EvaluatorSpec.ParseIntMinus (well-formedness),Passed,00:00:00.0344769,37050,3
EvaluatorSpec.DigitPrefixOfDigits (well-formedness),Passed,00:00:00.0332426,17680,3
Objects.CheckArrayIndexAccess (well-formedness),Passed,00:00:00.0330051,72482,3
ObjectsSpec.CheckedIndexReads (well-formedness),Passed,00:00:00.0327416,70781,3
Evaluator.UnaryOp (well-formedness),Passed,00:00:00.0322795,48020,3
Utils.ShowNat (well-formedness),Passed,00:00:00.0322301,34209,3
Evaluator.ParseUnsigned (well-formedness),Passed,00:00:00.0321482,71325,3
Objects.DictSet (well-formedness),Passed,00:00:00.0320021,52510,3
Parser.Match (well-formedness),Passed,00:00:00.0312843,47522,3
Parser.Render (well-formedness),Passed,00:00:00.0305595,41477,3
Ast.OptSize (well-formedness),Passed,00:00:00.0302760,44870,3
Ast.ExprsSize (well-formedness),Passed,00:00:00.0296180,46018,3
EvaluatorSpec.ParseIntStops (well-formedness),Passed,00:00:00.0294182,40299,3
Store.BoundInChain (well-formedness),Passed,00:00:00.0291296,18323,3
EvaluatorSpec.ParseIntDigits (well-formedness),Passed,00:00:00.0284671,40137,3
EvaluatorSpec.ParseIntUnsigned (well-formedness),Passed,00:00:00.0281397,35240,3
Ast.StmtSize (well-formedness),Passed,00:00:00.0281331,48156,3
Utils.Precedences (well-formedness),Passed,00:00:00.0278831,26646,3
Store.GetLocalIgnoresParents (correctness),Passed,00:00:00.0276853,27111,3
EvaluatorSpec.UnsignedNegated (correctness),Passed,00:00:00.0274297,38195,3
Ast.StmtsSize (well-formedness),Passed,00:00:00.0270866,45767,3
Store.GetLocal (well-formedness),Passed,00:00:00.0268669,19771,3
ObjectsSpec.ReadableIndices (correctness),Passed,00:00:00.0267727,56853,3
Builtins.FunctionText (well-formedness),Passed,00:00:00.0264858,24112,3
EvaluatorSpec.DropLets (well-formedness),Passed,00:00:00.0264631,38062,3
Objects.DictOf (well-formedness),Passed,00:00:00.0263712,35593,3
EvaluatorSpec.RadixPrefixAppend (correctness),Passed,00:00:00.0263557,47643,3
LexerSpec.SkipWhitespace (well-formedness),Passed,00:00:00.0252894,31059,3
LexerSpec.OperatorSpelling (well-formedness),Passed,00:00:00.0251099,49927,3
Evaluator.StrictEquals (well-formedness),Passed,00:00:00.0247164,42868,3
EvaluatorSpec.ParseIntShowNat (correctness),Passed,00:00:00.0247031,45600,3
LexerSpec.WordIsIdentifier (correctness),Passed,00:00:00.0246725,70236,3
Evaluator.ParseInt (well-formedness),Passed,00:00:00.0243950,48360,3
EvaluatorSpec.ZerosPrefixValue (well-formedness),Passed,00:00:00.0242474,26395,3
Lexer.TwoCharToken (well-formedness),Passed,00:00:00.0241582,31144,3
EvaluatorSpec.ZerosValue (well-formedness),Passed,00:00:00.0241389,23573,3
EvaluatorSpec.SplitFirst (well-formedness),Passed,00:00:00.0235060,21473,3
Evaluator.SpacePrefix (well-formedness),Passed,00:00:00.0234037,43845,3
EvaluatorSpec.DigitPrefixOfDigits (correctness),Passed,00:00:00.0233389,23727,3
EvaluatorSpec.SplitFirst (correctness),Passed,00:00:00.0226900,29447,3
LexerSpec.TwoCharSpelling (well-formedness),Passed,00:00:00.0219444,40134,3
LexerSpec.Spaces (well-formedness),Passed,00:00:00.0216766,20837,3
LexerSpec.KeywordSpellingIsIdentifier (well-formedness),Passed,00:00:00.0206847,44183,3
Builtins.Arg (well-formedness),Passed,00:00:00.0200043,17532,3
ObjectsSpec.IdentityKeys (well-formedness),Passed,00:00:00.0193749,36039,3
Objects.ArrayOf (well-formedness),Passed,00:00:00.0189816,30420,3
Ast.Node (well-formedness),Passed,00:00:00.0185604,28900,3
EvaluatorSpec.Zeros (well-formedness),Passed,00:00:00.0182350,22244,3
LexerSpec.IsDigitString (well-formedness),Passed,00:00:00.0181043,10919,3
Parser.PState.Current (well-formedness),Passed,00:00:00.0178652,15819,3
EvaluatorSpec.RadixPrefixAppend (well-formedness),Passed,00:00:00.0176853,19309,3
Objects.ElementAt (well-formedness),Passed,00:00:00.0173312,22357,3
EvaluatorSpec.AllDigits (well-formedness),Passed,00:00:00.0172801,10569,3
LexerSpec.NulMarksEnd (correctness),Passed,00:00:00.0171037,8700,3
LexerSpec.IsIdentifier (well-formedness),Passed,00:00:00.0169233,13967,3
LexerSpec.IsGap (well-formedness),Passed,00:00:00.0169228,11516,3
LexerSpec.IdentifierEndIs (correctness),Passed,00:00:00.0168940,25511,3
Objects.DictLength (well-formedness),Passed,00:00:00.0167524,14162,3
Objects.DictAt (well-formedness),Passed,00:00:00.0164924,28595,3
Parser.Follows (well-formedness),Passed,00:00:00.0153541,19068,3
Parser.OperandPrecedence (well-formedness),Passed,00:00:00.0153105,28714,3
Evaluator.Negate (well-formedness),Passed,00:00:00.0152586,9306,3
LexerSpec.NumberEndIs (well-formedness),Passed,00:00:00.0152361,13608,3
LexExamples.SpaceIsGap (correctness),Passed,00:00:00.0148269,15170,3
Parser.PState.CurrentKind (well-formedness),Passed,00:00:00.0145092,19049,3
Lexer.NumberEnd (well-formedness),Passed,00:00:00.0143906,31454,3
Builtins.Join (well-formedness),Passed,00:00:00.0143788,12899,3
Lexer.PeekChar (well-formedness),Passed,00:00:00.0142541,11042,3
Objects.ToPositiveIndex (well-formedness),Passed,00:00:00.0141653,10720,3
LexerSpec.WordIsIdentifier (well-formedness),Passed,00:00:00.0140781,23145,3
Lexer.ReadChar (well-formedness),Passed,00:00:00.0139645,9686,3
Objects.Push (well-formedness),Passed,00:00:00.0135783,12126,3
LexerSpec.IdentifierEndIs (well-formedness),Passed,00:00:00.0131116,18500,3
Objects.Alloc (well-formedness),Passed,00:00:00.0126872,22099,3
LexerSpec.ConsEof (correctness),Passed,00:00:00.0126497,20871,3
LexerSpec.NulMarksEnd (well-formedness),Passed,00:00:00.0126114,9013,3
LexerSpec.NumberEndIs (correctness),Passed,00:00:00.0125749,17901,3
Builtins.ShowInt (well-formedness),Passed,00:00:00.0121327,13688,3
Lexer.CurrentChar (well-formedness),Passed,00:00:00.0117552,7082,3
Parser.PState.Peek (well-formedness),Passed,00:00:00.0110660,15858,3
LexerSpec.ConsEof (well-formedness),Passed,00:00:00.0106416,17153,3
Parser.Parsed.Extract (well-formedness),Passed,00:00:00.0101956,10815,3
Parser.OptionToSeq (well-formedness),Passed,00:00:00.0100529,11182,3
Parser.PState.Advance (well-formedness),Passed,00:00:00.0100089,12801,3
EvaluatorSpec.AllLets (well-formedness),Passed,00:00:00.0099691,11657,3
Lexer.NulFree (well-formedness),Passed,00:00:00.0098463,8473,3
Lexer.Nul (well-formedness),Passed,00:00:00.0097073,3457,3
Wrappers.Result.Extract (well-formedness),Passed,00:00:00.0091458,6484,3
ParserSpec.At (well-formedness),Passed,00:00:00.0085839,11072,3
Wrappers.Option.Extract (well-formedness),Passed,00:00:00.0076924,6349,3
Wrappers.Result.PropagateFailure (well-formedness),Passed,00:00:00.0070779,6538,3
